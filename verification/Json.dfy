/** JSON documents as the ledger stores and ships them, and the two ways Python code
    reads them: `dict.get` (absent reads as null) and truthiness. */
module Json {
  // A double as its 64 bits, read as a number. Every NaN reads and prints as one, and is one here.
  const DOUBLES := 0x1_0000_0000_0000_0000
  const NEGATIVE_ZERO := 0x8000_0000_0000_0000
  const INFINITY := 0x7FF0_0000_0000_0000
  const NAN := 0x7FF8_0000_0000_0000

  // Past infinity, in either sign.
  predicate IsNaN(bits: int) {
    bits % NEGATIVE_ZERO > INFINITY
  }

  type Double = bits: int | 0 <= bits < DOUBLES && (IsNaN(bits) ==> bits == NAN)

  datatype Value =
    | Null
    | Bool(b: bool)
    | Int(i: int)
    | Float(bits: Double)
    | Str(s: string)
    | Arr(items: seq<Value>)
    | Obj(fields: Object)

  type Object = map<string, Value>

  // d.get(k)
  function Get(d: Object, k: string): Value {
    if k in d then d[k] else Null
  }

  // bool(v): null, false, zero and every empty container are falsy.
  predicate Truthy(v: Value) {
    match v
    case Null => false
    case Bool(b) => b
    case Int(i) => i != 0
    case Float(bits) => bits != 0 && bits != NEGATIVE_ZERO
    case Str(s) => s != ""
    case Arr(items) => items != []
    case Obj(fields) => fields != map[]
  }
}

module Wrappers {
  datatype Option<+T> = None | Some(value: T)

  datatype Result<+T, +E> = Ok(value: T) | Err(error: E)
}

/** SHA-256 as an unknown function. Nothing is assumed of it except that a digest is
    64 lower-case hexadecimal characters (FIPS 180-4, section 6.2; `hexdigest`). It is never
    assumed to be injective: where two inputs must be told apart, the two inputs with the
    same digest are named instead. */
module Hashing {
  const DIGEST_LENGTH := 64

  const GENESIS := "genesis"

  predicate IsHex(c: char) {
    '0' <= c <= '9' || 'a' <= c <= 'f'
  }

  ghost predicate IsDigest(s: string) {
    |s| == DIGEST_LENGTH && forall i | 0 <= i < |s| :: IsHex(s[i])
  }

  ghost predicate IsDigestFunction(sha: string -> string) {
    forall x :: IsDigest(sha(x))
  }

  // Two different inputs with one digest.
  predicate Collide(sha: string -> string, x: string, y: string) {
    x != y && sha(x) == sha(y)
  }

  lemma GenesisIsNoDigest(sha: string -> string, x: string)
    requires IsDigestFunction(sha)
    ensures sha(x) != GENESIS
  {
    assert IsDigest(sha(x));
  }

  // A digest function, if a poor one: every text has the digest of 64 zeros.
  function Constant(x: string): string {
    seq(DIGEST_LENGTH, _ => '0')
  }

  lemma ConstantIsDigest()
    ensures IsDigestFunction(Constant)
  {
    assert forall x :: IsDigest(Constant(x));
  }
}

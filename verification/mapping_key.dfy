/**
  The key of the container's table: the requested type plus an optional instance name.
  Types are an opaque identity `Ty`; the runtime's culture-aware case folding, `Type.GetHashCode`
  and `string.GetHashCode` are passed in as functions.
 */
module MappingKeys {
  import opened Wrappers

  /** Why an InvalidOperationException is thrown. */
  datatype InvalidCause = NotAssignable | NoMapping

  /** The exceptions the container throws: ArgumentNullException (with the parameter's name) and InvalidOperationException. */
  datatype Error = ArgumentNull(paramName: string) | InvalidOperation(cause: InvalidCause)

  /** An immutable key; both fields are get-only, so a datatype value captures it. */
  datatype MappingKey<Ty> = MappingKey(ty: Ty, instanceName: Option<string>)

  /** The constructor: a null type is rejected, the instance name (null or not) is kept as given. */
  function NewKey<Ty>(ty: Option<Ty>, instanceName: Option<string>): (r: Result<MappingKey<Ty>, Error>)
    ensures r.Failure? <==> ty.None?
    ensures r.Failure? ==> r.error == ArgumentNull("type")
    ensures r.Success? ==> r.value.ty == ty.value && r.value.instanceName == instanceName
  {
    match ty
    case None => Failure(ArgumentNull("type"))
    case Some(t) => Success(MappingKey(t, instanceName))
  }

  // ---------------------------------------------------------------- equality

  /** `string.Equals(a, b, CurrentCultureIgnoreCase)`, with the culture's case folding abstracted to `fold`. */
  function NamesEqual(a: Option<string>, b: Option<string>, fold: string -> string): (r: bool)
    ensures a.None? ==> (r <==> b.None?)
    ensures b.None? ==> (r <==> a.None?)
    ensures a == b ==> r
  {
    match (a, b)
    case (None, None) => true
    case (Some(x), Some(y)) => fold(x) == fold(y)
    case _ => false
  }

  /** Two keys are equal when their types are the same type and their names are equal ignoring case. */
  predicate KeyEquals<Ty(==)>(a: MappingKey<Ty>, b: MappingKey<Ty>, fold: string -> string)
  {
    a.ty == b.ty && NamesEqual(a.instanceName, b.instanceName, fold)
  }

  /** Key equality is an equivalence relation, whatever the case folding. */
  lemma KeyEqualsIsEquivalence<Ty>(a: MappingKey<Ty>, b: MappingKey<Ty>, c: MappingKey<Ty>, fold: string -> string)
    ensures KeyEquals(a, a, fold)
    ensures KeyEquals(a, b, fold) <==> KeyEquals(b, a, fold)
    ensures KeyEquals(a, b, fold) && KeyEquals(b, c, fold) ==> KeyEquals(a, c, fold)
  {
  }

  /**
    The argument of `Equals(object)`: a null reference, an object of some other class,
    or a MappingKey object, identified by its reference `ref`.
   */
  datatype Obj<Ty> = NullRef | OtherObject | KeyRef(ref: nat, key: MappingKey<Ty>)

  /**
    `Equals(object)` called on the key object at reference `selfRef`. The reference shortcut
    agrees with field comparison, so the result is exactly key equality against a MappingKey.
   */
  function Equals<Ty(==)>(selfRef: nat, self: MappingKey<Ty>, obj: Obj<Ty>, fold: string -> string): (r: bool)
    requires obj.KeyRef? && obj.ref == selfRef ==> obj.key == self
    ensures r <==> obj.KeyRef? && KeyEquals(self, obj.key, fold)
    ensures obj.NullRef? || obj.OtherObject? ==> !r
  {
    match obj
    case NullRef => false
    case OtherObject => false
    case KeyRef(ref, other) =>
      if ref == selfRef then true
      else self.ty == other.ty && NamesEqual(self.instanceName, other.instanceName, fold)
  }

  // ---------------------------------------------------------------- hashing

  const TwoTo31: int := 0x8000_0000
  const TwoTo32: int := 0x1_0000_0000

  /** The values of a C# `int`. */
  type Int32 = x: int | -0x8000_0000 <= x < 0x8000_0000

  /** The multiplier of the hash combine. */
  const Multiplier: int := 31

  /** Two's-complement wrap-around of an `unchecked` 32-bit result. */
  function Wrap32(x: int): (r: Int32)
    ensures (r - x) % TwoTo32 == 0
    ensures -TwoTo31 <= x < TwoTo31 ==> r == x
  {
    (x + TwoTo31) % TwoTo32 - TwoTo31
  }

  /** Two integers congruent modulo 2^32 wrap to the same `int`. */
  lemma WrapCongruent(x: int, y: int)
    requires (x - y) % TwoTo32 == 0
    ensures Wrap32(x) == Wrap32(y)
  {
    var rx, ry := Wrap32(x), Wrap32(y);
    assert (rx - ry) % TwoTo32 == 0;
  }

  /** A null instance name contributes 0. */
  function NameHash(name: Option<string>, strHash: string -> Int32): (h: Int32)
  {
    match name
    case None => 0
    case Some(s) => strHash(s)
  }

  /**
    `GetHashCode`: start from the hash of the MappingKey class itself (`classHash`), then fold in the
    type's hash and the name's hash, multiplying by 31 and wrapping to 32 bits at every step.
   */
  function Hash<Ty>(k: MappingKey<Ty>, classHash: Int32, typeHash: Ty -> Int32, strHash: string -> Int32): (h: Int32)
  {
    var hash: Int32 := classHash;
    var hash: Int32 := Wrap32(hash * Multiplier + typeHash(k.ty));
    Wrap32(hash * Multiplier + NameHash(k.instanceName, strHash))
  }

  /** Wrapping after every step gives the wrapped value of `(c*31 + typeHash)*31 + nameHash`. */
  lemma HashClosedForm<Ty>(k: MappingKey<Ty>, classHash: Int32, typeHash: Ty -> Int32, strHash: string -> Int32)
    ensures Hash(k, classHash, typeHash, strHash)
         == Wrap32((classHash * 31 + typeHash(k.ty)) * 31 + NameHash(k.instanceName, strHash))
  {
    var exact := classHash * 31 + typeHash(k.ty);
    var h := Wrap32(exact);
    var d := (h - exact) / TwoTo32;
    assert h - exact == TwoTo32 * d;
    assert (h * 31 + NameHash(k.instanceName, strHash)) - (exact * 31 + NameHash(k.instanceName, strHash)) == TwoTo32 * (31 * d);
    WrapCongruent(h * 31 + NameHash(k.instanceName, strHash), exact * 31 + NameHash(k.instanceName, strHash));
  }

  /** Keys with the same type and identical names are equal and hash alike. */
  lemma HashAgreesOnIdenticalNames<Ty>(a: MappingKey<Ty>, b: MappingKey<Ty>, fold: string -> string,
                                           classHash: Int32, typeHash: Ty -> Int32, strHash: string -> Int32)
    requires a.ty == b.ty && a.instanceName == b.instanceName
    ensures KeyEquals(a, b, fold)
    ensures Hash(a, classHash, typeHash, strHash) == Hash(b, classHash, typeHash, strHash)
  {
  }

  /**
    The name hash is case-sensitive while equality is not: two names that fold alike but whose
    string hashes differ give keys that are equal yet hash differently.
   */
  lemma EqualKeysMayHashApart<Ty>(t: Ty, x: string, y: string, fold: string -> string,
                                      classHash: Int32, typeHash: Ty -> Int32, strHash: string -> Int32)
    requires fold(x) == fold(y) && strHash(x) != strHash(y)
    ensures KeyEquals(MappingKey(t, Some(x)), MappingKey(t, Some(y)), fold)
    ensures Hash(MappingKey(t, Some(x)), classHash, typeHash, strHash)
         != Hash(MappingKey(t, Some(y)), classHash, typeHash, strHash)
  {
    var h := Wrap32(classHash * Multiplier + typeHash(t));
    assert Hash(MappingKey(t, Some(x)), classHash, typeHash, strHash) == Wrap32(h * Multiplier + strHash(x));
    assert Hash(MappingKey(t, Some(y)), classHash, typeHash, strHash) == Wrap32(h * Multiplier + strHash(y));
    var ex, ey := h * Multiplier + strHash(x), h * Multiplier + strHash(y);
    var wx, wy := Wrap32(ex), Wrap32(ey);
    assert (wx - ex) % TwoTo32 == 0 && (wy - ey) % TwoTo32 == 0;
    var qx, qy := (wx - ex) / TwoTo32, (wy - ey) / TwoTo32;
    assert wx - ex == TwoTo32 * qx && wy - ey == TwoTo32 * qy;
    assert wx - wy == strHash(x) - strHash(y) + TwoTo32 * (qx - qy);
  }
}

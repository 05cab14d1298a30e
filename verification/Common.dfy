/** Wrappers shared by every component. */
module Wrappers {
  datatype Option<+T> = None | Some(value: T)

  datatype Result<+T, +E> = Ok(value: T) | Err(error: E)
}

/**
 * The JSON values that the Python sources pass around.
 *
 * A float is kept as its floor and the rest above it, in units of 2^-1074 (every finite
 * double is a whole number of those), so a float is a countable value and equals an integer
 * exactly when the rest is zero.
 */
module Json {
  import opened Wrappers

  datatype Json =
    | JNull
    | JBool(b: bool)
    | JInt(n: int)
    | JFloat(whole: int, fraction: nat)
    | JStr(s: string)
    | JArr(items: seq<Json>)
    | JObj(members: map<string, Json>)

  const EMPTY_OBJECT := JObj(map[])

  /** `canonical_json` accepts a value when no float occurs anywhere in it. */
  predicate Canonical(j: Json) {
    match j
    case JFloat(_, _) => false
    case JArr(items) => forall i :: 0 <= i < |items| ==> Canonical(items[i])
    case JObj(members) => forall k :: k in members ==> Canonical(members[k])
    case _ => true
  }

  /** Python's number tower: `True`, `1` and `1.0` are the same number. */
  function Number(j: Json): Option<(int, nat)> {
    match j
    case JBool(b) => Some((if b then 1 else 0, 0))
    case JInt(n) => Some((n, 0))
    case JFloat(w, f) => Some((w, f))
    case _ => None
  }

  /** Python's `==` on decoded JSON values. */
  predicate PyEqual(a: Json, b: Json)
    decreases a
  {
    match a
    case JArr(xs) => b.JArr? && |xs| == |b.items| && forall i :: 0 <= i < |xs| ==> PyEqual(xs[i], b.items[i])
    case JObj(m) => b.JObj? && m.Keys == b.members.Keys && forall k :: k in m ==> PyEqual(m[k], b.members[k])
    case JNull => b.JNull?
    case JStr(s) => b == a
    case _ => Number(b) == Number(a)
  }

  /** `d.get(key)` on an object; a missing key and any other value give `None`. */
  function Get(j: Json, key: string): Option<Json> {
    if j.JObj? && key in j.members then Some(j.members[key]) else None
  }

  /** A float stands somewhere in the value. */
  predicate HasFloat(j: Json) {
    match j
    case JFloat(_, _) => true
    case JArr(items) => exists i :: 0 <= i < |items| && HasFloat(items[i])
    case JObj(members) => exists k :: k in members && HasFloat(members[k])
    case _ => false
  }

  lemma {:induction false} CanonicalIff(j: Json)
    ensures Canonical(j) <==> !HasFloat(j)
  {
    match j
    case JArr(items) =>
      forall i | 0 <= i < |items| ensures Canonical(items[i]) <==> !HasFloat(items[i]) { CanonicalIff(items[i]); }
    case JObj(members) =>
      forall k | k in members ensures Canonical(members[k]) <==> !HasFloat(members[k]) { CanonicalIff(members[k]); }
    case _ =>
  }

  /** Python's equality does not depend on the order of its sides. */
  lemma {:induction false} PyEqualSymmetric(a: Json, b: Json)
    requires PyEqual(a, b)
    ensures PyEqual(b, a)
    decreases a
  {
    match a
    case JArr(xs) =>
      forall i | 0 <= i < |xs| ensures PyEqual(b.items[i], xs[i]) { PyEqualSymmetric(xs[i], b.items[i]); }
    case JObj(m) =>
      forall k | k in m ensures PyEqual(b.members[k], m[k]) { PyEqualSymmetric(m[k], b.members[k]); }
    case _ =>
  }

  /** `True`, `1` and `1.0` are one number, and no string, `None`, array or object is a number. */
  lemma NumbersCompare(n: int, fraction: nat, j: Json)
    ensures PyEqual(JInt(1), JBool(true)) && PyEqual(JInt(0), JBool(false)) && PyEqual(JFloat(n, 0), JInt(n))
    ensures PyEqual(JFloat(n, fraction), JInt(n)) <==> fraction == 0
    ensures j.JStr? || j.JNull? || j.JArr? || j.JObj? ==> !PyEqual(JInt(n), j) && !PyEqual(j, JInt(n))
  {
  }

  /** Identical JSON values compare equal in Python; the converse is false. */
  lemma {:induction false} PyEqualReflexive(j: Json)
    ensures PyEqual(j, j)
  {
    match j
    case JArr(items) =>
      forall i | 0 <= i < |items| ensures PyEqual(items[i], items[i]) { PyEqualReflexive(items[i]); }
    case JObj(members) =>
      forall k | k in members ensures PyEqual(members[k], members[k]) { PyEqualReflexive(members[k]); }
    case _ =>
  }
}

/** Python's `round`, on exact quotients. */
module Rounding {
  /** The whole number nearest to n/d; a tie goes to the even one. */
  function RoundHalfEven(n: int, d: int): int
    requires d > 0
  {
    var q, rest := n / d, n % d;
    if 2 * rest < d || (2 * rest == d && q % 2 == 0) then q else q + 1
  }

  lemma {:induction false} Times(a: int, d: nat)
    ensures a >= 0 ==> a * d >= 0
    ensures a >= 1 ==> a * d >= d
    ensures a <= -1 ==> a * d <= 0 - d
  {
    if d > 0 { Times(a, d - 1); }
  }

  lemma TimesDifference(x: int, y: int, d: int)
    ensures (x - y) * d == x * d - y * d
  {
  }

  lemma TimesOrder(x: int, y: int, d: int)
    requires d > 0
    ensures x >= y ==> x * d >= y * d
    ensures x <= y - 1 ==> x * d <= y * d - d
    ensures x <= y - 2 ==> x * d <= y * d - 2 * d
  {
    TimesDifference(x, y, d);
    Times(x - y, d);
    TimesDifference(x + 1, y, d);
    TimesDifference(x, -1, d);
    Times(x + 1 - y, d);
  }

  /** Rounding is at most half a step away, and at exactly half a step it is even. */
  lemma RoundHalfEvenIsNear(n: int, d: int)
    requires d > 0
    ensures var r := RoundHalfEven(n, d) * d;
            2 * n - d <= 2 * r <= 2 * n + d
            && (2 * r == 2 * n - d || 2 * r == 2 * n + d ==> RoundHalfEven(n, d) % 2 == 0)
  {
    var q, rest := n / d, n % d;
    assert n == q * d + rest;
    assert (q + 1) * d == q * d + d;
  }

  lemma RoundingIsMonotone(a: int, b: int, d: int)
    requires a <= b && d > 0
    ensures RoundHalfEven(a, d) <= RoundHalfEven(b, d)
  {
    var x, y := RoundHalfEven(a, d), RoundHalfEven(b, d);
    RoundHalfEvenIsNear(a, d);
    RoundHalfEvenIsNear(b, d);
    TimesDifference(x, y, d);
    Times(x - y, d);
    if x > y {
      Times(x - y - 1, d);
      TimesDifference(x - y, 1, d);
    }
  }
}

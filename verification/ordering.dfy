/**
 * The orders the handlers sort by: the document store's `ORDER BY` on one
 * property, descending order, ordering by a second key among equals, and the
 * patient-name comparison of the patient listing.
 */
module Ordering {
  import opened Json
  import opened Text
  import opened Sequences

  /** Type rank in the store's ordering: undefined, null, booleans, numbers, strings, arrays. */
  function Rank(v: Option<Value>): nat
  {
    match v
    case None => 0
    case Some(Null) => 1
    case Some(Bool(_)) => 2
    case Some(Num(_)) => 3
    case Some(Str(_)) => 4
    case Some(List(_)) => 5
  }

  /**
   * The store's order on property values: by type rank first, then `false`
   * before `true`, numbers by value, strings in ordinal order; arrays are all
   * equivalent to one another.
   */
  predicate KeyLe(a: Option<Value>, b: Option<Value>)
  {
    if Rank(a) != Rank(b) then Rank(a) < Rank(b)
    else match (a, b)
      case (Some(Bool(x)), Some(Bool(y))) => !x || y
      case (Some(Num(x)), Some(Num(y))) => x <= y
      case (Some(Str(x)), Some(Str(y))) => StrLe(x, y)
      case _ => true
  }

  lemma KeyLeTotal(a: Option<Value>, b: Option<Value>)
    ensures KeyLe(a, b) || KeyLe(b, a)
  {
    if a.Some? && a.value.Str? && b.Some? && b.value.Str? {
      StrLeTotal(a.value.s, b.value.s);
    }
  }

  lemma KeyLeTransitive(a: Option<Value>, b: Option<Value>, c: Option<Value>)
    requires KeyLe(a, b) && KeyLe(b, c)
    ensures KeyLe(a, c)
  {
    if Rank(a) == Rank(b) == Rank(c) && a.Some? && a.value.Str? {
      StrLeTransitive(a.value.s, b.value.s, c.value.s);
    }
  }

  /** `ORDER BY c.k` (ascending). */
  function ByField(k: Field): (Object, Object) -> bool
  {
    (a: Object, b: Object) => KeyLe(Get(a, k), Get(b, k))
  }

  /** `ORDER BY c.k DESC`, and a comparator written `(a, b) => key(b) - key(a)`. */
  function Descending<T>(le: (T, T) -> bool): (T, T) -> bool
  {
    (a: T, b: T) => le(b, a)
  }

  /** Order by `first`; among elements `first` ranks equal, order by `second`. */
  function ThenBy<T>(first: (T, T) -> bool, second: (T, T) -> bool): (T, T) -> bool
  {
    (a: T, b: T) => first(a, b) && (!first(b, a) || second(a, b))
  }

  /** The text a patient listing compares for property `k`: `(o.k || '')`. */
  function NameKey(o: Object, k: Field): string
  {
    match Get(o, k)
    case Some(Str(s)) => s
    case _ => ""
  }

  /** `(a.k || '').localeCompare(b.k || '') <= 0`, with the comparison taken as ordinal. */
  function ByName(k: Field): (Object, Object) -> bool
  {
    (a: Object, b: Object) => StrLe(NameKey(a, k), NameKey(b, k))
  }

  lemma ByFieldPreorder(k: Field)
    ensures TotalPreorder(ByField(k))
  {
    var le := ByField(k);
    forall a, b ensures le(a, b) || le(b, a) {
      KeyLeTotal(Get(a, k), Get(b, k));
    }
    forall a, b, c | le(a, b) && le(b, c) ensures le(a, c) {
      KeyLeTransitive(Get(a, k), Get(b, k), Get(c, k));
    }
  }

  lemma ByNamePreorder(k: Field)
    ensures TotalPreorder(ByName(k))
  {
    var le := ByName(k);
    forall a, b ensures le(a, b) || le(b, a) {
      StrLeTotal(NameKey(a, k), NameKey(b, k));
    }
    forall a, b, c | le(a, b) && le(b, c) ensures le(a, c) {
      StrLeTransitive(NameKey(a, k), NameKey(b, k), NameKey(c, k));
    }
  }

  lemma DescendingPreorder<T(!new)>(le: (T, T) -> bool)
    requires TotalPreorder(le)
    ensures TotalPreorder(Descending(le))
  {
    var d := Descending(le);
    assert forall a, b :: d(a, b) == le(b, a);
  }

  lemma ThenByPreorder<T(!new)>(first: (T, T) -> bool, second: (T, T) -> bool)
    requires TotalPreorder(first) && TotalPreorder(second)
    ensures TotalPreorder(ThenBy(first, second))
  {
    var le := ThenBy(first, second);
    assert forall a, b :: le(a, b) == (first(a, b) && (!first(b, a) || second(a, b)));
    forall a, b, c | le(a, b) && le(b, c) ensures le(a, c) {
      if first(c, a) {
        assert first(c, b) && first(b, a);
        assert second(a, b) && second(b, c);
      }
    }
  }
}

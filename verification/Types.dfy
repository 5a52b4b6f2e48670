/** Names shared by every component. */
module Types {
  datatype Option<+T> = None | Some(value: T)

  /** Primary keys of `webhook_events` and `webhook_configs`, and the identity of one service instance. */
  type EventId = nat
  type WebhookId = nat
  type InstanceId = nat

  /** Points in time and durations, in nanoseconds. */
  type Time = int
  type Duration = int

  function Min(a: int, b: int): int {
    if a < b then a else b
  }

  function Max(a: int, b: int): int {
    if a > b then a else b
  }

  function One(b: bool): nat {
    if b then 1 else 0
  }

  predicate Distinct<T(==)>(s: seq<T>) {
    forall i, j :: 0 <= i < j < |s| ==> s[i] != s[j]
  }

  function Elements<T(==)>(s: seq<T>): set<T> {
    set x | x in s
  }

  lemma SplitLast<T>(s: seq<T>)
    requires s != [] && Distinct(s)
    ensures var init, last := s[..|s| - 1], s[|s| - 1];
            s == init + [last] && Distinct(init) && last !in init && Elements(s) == Elements(init) + {last}
  {
  }

  lemma {:induction false} ElementsSize<T>(s: seq<T>)
    requires Distinct(s)
    ensures |Elements(s)| == |s|
  {
    if s != [] {
      SplitLast(s);
      ElementsSize(s[..|s| - 1]);
    }
  }

  lemma SubsetSize<T>(a: set<T>, b: set<T>)
    requires a <= b
    ensures |a| <= |b| && (|a| == |b| ==> a == b)
  {
    assert b == a + (b - a);
  }
}

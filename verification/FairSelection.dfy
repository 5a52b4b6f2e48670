/** The polling query: a quota per webhook, a row number within each webhook, a global order and a
    LIMIT, over the rows that are ready at one moment. */
module FairSelection {
  import opened Types

  datatype Item = Item(id: EventId, webhook: WebhookId, next: Option<Time>, created: Time)

  /** ORDER BY next_attempt_at NULLS FIRST, created_at. */
  predicate KeyLe(a: Item, b: Item) {
    if a.next.None? then b.next.Some? || a.created <= b.created
    else b.next.Some? && (a.next.value < b.next.value || (a.next == b.next && a.created <= b.created))
  }

  predicate Sorted(s: seq<Item>) {
    forall i, j :: 0 <= i < j < |s| ==> KeyLe(s[i], s[j])
  }

  function Webhooks(ready: set<Item>): set<WebhookId> {
    set x | x in ready :: x.webhook
  }

  function CeilDiv(a: int, b: int): int
    requires b > 0
  {
    (a + b - 1) / b
  }

  /** GREATEST(1, CEIL(limit / NULLIF(count, 0))): without ready webhooks the quotient is NULL and ignored. */
  function Quota(limit: int, webhooks: nat): int {
    if webhooks == 0 then 1 else Max(1, CeilDiv(limit, webhooks))
  }

  function Count(w: WebhookId, s: seq<Item>): nat {
    if s == [] then 0 else Count(w, s[..|s| - 1]) + if s[|s| - 1].webhook == w then 1 else 0
  }

  /** The rows whose ROW_NUMBER within their webhook is at most `q`, in the order they are numbered in. */
  function WithinQuota(s: seq<Item>, q: int): seq<Item> {
    if s == [] then []
    else
      var last := s[|s| - 1];
      WithinQuota(s[..|s| - 1], q) + if Count(last.webhook, s) <= q then [last] else []
  }

  /** SKIP LOCKED. */
  function Unlocked(s: seq<Item>, locked: set<EventId>): seq<Item> {
    if s == [] then []
    else
      var last := s[|s| - 1];
      Unlocked(s[..|s| - 1], locked) + if last.id in locked then [] else [last]
  }

  function Limit(s: seq<Item>, limit: int): seq<Item> {
    if |s| <= limit then s else if limit <= 0 then [] else s[..limit]
  }

  /** The rows of `ready`, each once, in key order; rows with equal keys may come in any order. */
  ghost predicate Listing(s: seq<Item>, ready: set<Item>) {
    Sorted(s) && Distinct(s) && Elements(s) == ready
  }

  /** What the query may return. The row numbers and the final order may break ties differently. */
  ghost predicate IsBatch(ready: set<Item>, limit: int, locked: set<EventId>, batch: seq<Item>) {
    exists numbered: seq<Item>, out: seq<Item> ::
      && Listing(numbered, ready)
      && Listing(out, Elements(Unlocked(WithinQuota(numbered, Quota(limit, |Webhooks(ready)|)), locked)))
      && batch == Limit(out, limit)
  }

  // ----- An evaluation of the query over a table in physical order

  function Insert(x: Item, s: seq<Item>): seq<Item> {
    if s == [] then [x]
    else if KeyLe(s[|s| - 1], x) then s + [x]
    else Insert(x, s[..|s| - 1]) + [s[|s| - 1]]
  }

  function Sort(s: seq<Item>): seq<Item> {
    if s == [] then [] else Insert(s[|s| - 1], Sort(s[..|s| - 1]))
  }

  function Query(table: seq<Item>, limit: int, locked: set<EventId>): seq<Item> {
    Limit(Unlocked(WithinQuota(Sort(table), Quota(limit, |Webhooks(Elements(table))|)), locked), limit)
  }

  lemma {:induction false} InsertCorrect(x: Item, s: seq<Item>)
    requires Sorted(s) && Distinct(s) && x !in s
    ensures var r := Insert(x, s); Sorted(r) && Distinct(r) && (forall y :: y in r <==> y == x || y in s)
  {
    if s != [] && !KeyLe(s[|s| - 1], x) {
      var init := s[..|s| - 1];
      assert s == init + [s[|s| - 1]];
      InsertCorrect(x, init);
      var r := Insert(x, init);
      forall i | 0 <= i < |r| ensures KeyLe(r[i], s[|s| - 1]) && r[i] != s[|s| - 1] {
        assert r[i] in r;
      }
    }
  }

  lemma {:induction false} SortCorrect(s: seq<Item>)
    requires Distinct(s)
    ensures Listing(Sort(s), Elements(s))
  {
    if s != [] {
      var init := s[..|s| - 1];
      var last := s[|s| - 1];
      SortCorrect(init);
      assert forall y :: y in init <==> y in Sort(init) by {
        assert forall y :: y in init <==> y in Elements(init);
        assert forall y :: y in Sort(init) <==> y in Elements(Sort(init));
      }
      InsertCorrect(last, Sort(init));
      assert s == init + [last];
      assert forall y :: y in s <==> y in Sort(s);
    }
  }

  lemma {:induction false} WithinQuotaSublist(s: seq<Item>, q: int)
    requires Sorted(s) && Distinct(s)
    ensures var r := WithinQuota(s, q); Sorted(r) && Distinct(r) && (forall y :: y in r ==> y in s)
  {
    if s != [] {
      WithinQuotaSublist(s[..|s| - 1], q);
      Appended(s, WithinQuota(s[..|s| - 1], q));
    }
  }

  lemma {:induction false} UnlockedSublist(s: seq<Item>, locked: set<EventId>)
    requires Sorted(s) && Distinct(s)
    ensures var r := Unlocked(s, locked);
            Sorted(r) && Distinct(r) && (forall y :: y in r <==> y in s && y.id !in locked)
  {
    if s != [] {
      assert s == s[..|s| - 1] + [s[|s| - 1]];
      UnlockedSublist(s[..|s| - 1], locked);
      Appended(s, Unlocked(s[..|s| - 1], locked));
    }
  }

  /** A sublist of all but the last row can take the last row at its end. */
  lemma Appended(s: seq<Item>, r: seq<Item>)
    requires s != [] && Sorted(s) && Distinct(s) && Sorted(r) && Distinct(r)
    requires forall y :: y in r ==> y in s[..|s| - 1]
    ensures Sorted(r + [s[|s| - 1]]) && Distinct(r + [s[|s| - 1]])
  {
    forall i | 0 <= i < |r| ensures KeyLe(r[i], s[|s| - 1]) && r[i] != s[|s| - 1] {
      assert r[i] in r;
      var j :| 0 <= j < |s| - 1 && s[..|s| - 1][j] == r[i];
      assert s[j] == r[i];
    }
  }

  /** The evaluation returns one of the answers the query allows. */
  lemma QueryIsBatch(table: seq<Item>, limit: int, locked: set<EventId>)
    requires Distinct(table)
    ensures IsBatch(Elements(table), limit, locked, Query(table, limit, locked))
  {
    SortCorrect(table);
    var numbered := Sort(table);
    var quota := WithinQuota(numbered, Quota(limit, |Webhooks(Elements(table))|));
    WithinQuotaSublist(numbered, Quota(limit, |Webhooks(Elements(table))|));
    UnlockedSublist(quota, locked);
    assert Listing(Unlocked(quota, locked), Elements(Unlocked(quota, locked)));
  }

  // ----- Counting

  function Of(w: WebhookId, rows: set<Item>): set<Item> {
    set x | x in rows && x.webhook == w
  }

  lemma OfOneMore(w: WebhookId, rows: set<Item>, x: Item)
    requires x !in rows
    ensures |rows + {x}| == |rows| + 1
    ensures |Of(w, rows + {x})| == |Of(w, rows)| + if x.webhook == w then 1 else 0
  {
    if x.webhook == w {
      assert Of(w, rows + {x}) == Of(w, rows) + {x};
    } else {
      assert Of(w, rows + {x}) == Of(w, rows);
    }
  }

  lemma {:induction false} SizesAgree(s: seq<Item>, w: WebhookId)
    requires Distinct(s)
    ensures |s| == |Elements(s)| && Count(w, s) == |Of(w, Elements(s))|
  {
    if s != [] {
      SplitLast(s);
      SizesAgree(s[..|s| - 1], w);
      OfOneMore(w, Elements(s[..|s| - 1]), s[|s| - 1]);
    }
  }

  lemma {:induction false} CountWithinQuota(s: seq<Item>, q: int, w: WebhookId)
    requires q >= 1
    ensures Count(w, WithinQuota(s, q)) == Min(q, Count(w, s))
  {
    if s != [] {
      var init, last := s[..|s| - 1], s[|s| - 1];
      CountWithinQuota(init, q, w);
      var r := WithinQuota(init, q);
      assert (r + [last])[..|r|] == r && r + [] == r;
    }
  }

  /** The quota rows of each webhook: min(q, r) of its r ready rows. */
  lemma QuotaPerWebhook(numbered: seq<Item>, ready: set<Item>, q: int, w: WebhookId)
    requires Listing(numbered, ready) && q >= 1
    ensures var chosen := Elements(WithinQuota(numbered, q));
            chosen <= ready && |Of(w, chosen)| == Min(q, |Of(w, ready)|)
  {
    WithinQuotaSublist(numbered, q);
    CountWithinQuota(numbered, q, w);
    SizesAgree(numbered, w);
    SizesAgree(WithinQuota(numbered, q), w);
    forall x | x in WithinQuota(numbered, q) ensures x in ready {
      assert x in Elements(numbered);
    }
  }

  function Repeated(k: nat, q: nat): nat {
    if k == 0 then 0 else Repeated(k - 1, q) + q
  }

  lemma {:induction false} RepeatedIsProduct(k: nat, q: nat)
    ensures Repeated(k, q) == k * q
  {
    if k > 0 {
      RepeatedIsProduct(k - 1, q);
      assert k * q == (k - 1) * q + q;
    }
  }

  lemma {:induction false} TotalAtMost(rows: set<Item>, webhooks: set<WebhookId>, q: nat)
    requires Webhooks(rows) <= webhooks
    requires forall w :: w in webhooks ==> |Of(w, rows)| <= q
    ensures |rows| <= Repeated(|webhooks|, q)
  {
    if webhooks == {} {
      assert forall x :: x in rows ==> x.webhook in Webhooks(rows);
    } else {
      var w :| w in webhooks;
      var others := rows - Of(w, rows);
      forall v | v in webhooks - {w} ensures |Of(v, others)| <= q {
        assert Of(v, others) == Of(v, rows);
      }
      forall v | v in Webhooks(others) ensures v in webhooks - {w} {
        var x :| x in others && x.webhook == v;
        assert x.webhook in Webhooks(rows);
      }
      TotalAtMost(others, webhooks - {w}, q);
      assert |rows| == |others| + |Of(w, rows)| by {
        assert rows == others + Of(w, rows);
      }
      assert |webhooks - {w}| == |webhooks| - 1;
    }
  }

  lemma ProductStep(n: nat, a: int, b: int)
    ensures a > b ==> n * a >= n * b + n
  {
    if a > b {
      assert n * a - n * (b + 1) == n * (a - b - 1);
    }
  }

  lemma CeilDivBounds(a: int, n: nat)
    requires n >= 1
    ensures a <= n * CeilDiv(a, n) <= a + n - 1
  {
  }

  lemma CeilDivAtMost(a: int, n: nat)
    requires a >= 1 && n >= 1
    ensures 1 <= CeilDiv(a, n) <= a
  {
    var c := CeilDiv(a, n);
    CeilDivBounds(a, n);
    ProductStep(n, 1, c);
    ProductStep(n, c, a);
    ProductStep(a, n, 1);
  }

  lemma CeilDivExact(a: int, n: nat)
    requires n >= 1 && a % n == 0
    ensures CeilDiv(a, n) == a / n && n * (a / n) == a
  {
    CeilDivBounds(a, n);
    ProductStep(n, CeilDiv(a, n), a / n);
    ProductStep(n, a / n, CeilDiv(a, n));
  }

  lemma CeilDivAntitone(a: int, n: nat, m: nat)
    requires a >= 1 && 1 <= n <= m
    ensures CeilDiv(a, m) <= CeilDiv(a, n)
  {
    var c, d := CeilDiv(a, n), CeilDiv(a, m);
    CeilDivBounds(a, n);
    CeilDivBounds(a, m);
    CeilDivAtMost(a, n);
    ProductStep(m, d, c);
    assert m * c == n * c + (m - n) * c;
  }

  lemma QuotaArithmetic(limit: int, n: nat)
    requires limit >= 1 && n >= 1
    ensures var q := Quota(limit, n); 1 <= q <= limit && limit <= n * q <= limit + n - 1
    ensures limit % n == 0 ==> Quota(limit, n) == limit / n && n * (limit / n) == limit
  {
    CeilDivBounds(limit, n);
    CeilDivAtMost(limit, n);
    if limit % n == 0 {
      CeilDivExact(limit, n);
    }
  }

  lemma SomeWebhook(ready: set<Item>)
    requires ready != {}
    ensures |Webhooks(ready)| >= 1
  {
    var x :| x in ready;
    assert x.webhook in Webhooks(ready);
  }

  lemma {:induction false} CountOfPrefix(w: WebhookId, s: seq<Item>, l: nat)
    requires l <= |s|
    ensures Count(w, s) - (|s| - l) <= Count(w, s[..l]) <= Count(w, s)
  {
    if l < |s| {
      assert s[..|s| - 1][..l] == s[..l];
      CountOfPrefix(w, s[..|s| - 1], l);
    } else {
      assert s[..l] == s;
    }
  }

  /** The row numbering behind an answer, and the final order before the LIMIT. */
  lemma Orders(ready: set<Item>, limit: int, locked: set<EventId>, batch: seq<Item>)
      returns (numbered: seq<Item>, out: seq<Item>)
    requires IsBatch(ready, limit, locked, batch)
    ensures Listing(numbered, ready) && batch == Limit(out, limit)
    ensures Listing(out, Elements(Unlocked(WithinQuota(numbered, Quota(limit, |Webhooks(ready)|)), locked)))
  {
    numbered, out :|
      && Listing(numbered, ready)
      && Listing(out, Elements(Unlocked(WithinQuota(numbered, Quota(limit, |Webhooks(ready)|)), locked)))
      && batch == Limit(out, limit);
  }

  lemma UnlockedRows(s: seq<Item>, q: int, locked: set<EventId>)
    requires Sorted(s) && Distinct(s)
    ensures Elements(Unlocked(WithinQuota(s, q), locked)) ==
            set x | x in Elements(WithinQuota(s, q)) && x.id !in locked
  {
    WithinQuotaSublist(s, q);
    UnlockedSublist(WithinQuota(s, q), locked);
  }

  lemma QuotaRows(numbered: seq<Item>, ready: set<Item>, q: int)
    requires Listing(numbered, ready) && q >= 1
    ensures var chosen := Elements(WithinQuota(numbered, q));
            chosen <= ready && forall w :: |Of(w, chosen)| == Min(q, |Of(w, ready)|)
  {
    QuotaPerWebhook(numbered, ready, q, 0);
    forall w ensures |Of(w, Elements(WithinQuota(numbered, q)))| == Min(q, |Of(w, ready)|) {
      QuotaPerWebhook(numbered, ready, q, w);
    }
  }

  /** The parts of an answer: the row numbering, the quota rows, and their final order. */
  lemma Parts(ready: set<Item>, limit: int, locked: set<EventId>, batch: seq<Item>)
      returns (numbered: seq<Item>, chosen: set<Item>, out: seq<Item>)
    requires IsBatch(ready, limit, locked, batch)
    ensures Listing(numbered, ready)
    ensures chosen == Elements(WithinQuota(numbered, Quota(limit, |Webhooks(ready)|)))
    ensures chosen <= ready && (forall w :: |Of(w, chosen)| == Min(Quota(limit, |Webhooks(ready)|), |Of(w, ready)|))
    ensures Listing(out, set x | x in chosen && x.id !in locked) && batch == Limit(out, limit)
  {
    var q := Quota(limit, |Webhooks(ready)|);
    numbered, out := Orders(ready, limit, locked, batch);
    chosen := Elements(WithinQuota(numbered, q));
    UnlockedRows(numbered, q, locked);
    QuotaRows(numbered, ready, q);
  }

  /** A batch is a sorted list of distinct ready rows that no other transaction has locked, no longer than the limit. */
  lemma BatchRows(ready: set<Item>, limit: int, locked: set<EventId>, batch: seq<Item>)
    requires IsBatch(ready, limit, locked, batch)
    ensures Sorted(batch) && Distinct(batch) && |batch| <= Max(0, limit)
    ensures forall x :: x in batch ==> x in ready && x.id !in locked
  {
    var numbered, chosen, out := Parts(ready, limit, locked, batch);
    forall x | x in batch ensures x in Elements(out) {
    }
  }

  /** Whatever is locked, no webhook gets more than its quota. */
  lemma AtMostQuota(ready: set<Item>, limit: int, locked: set<EventId>, batch: seq<Item>, w: WebhookId)
    requires IsBatch(ready, limit, locked, batch)
    ensures Count(w, batch) <= Quota(limit, |Webhooks(ready)|)
  {
    var numbered, chosen, out := Parts(ready, limit, locked, batch);
    BatchRows(ready, limit, locked, batch);
    SizesAgree(batch, w);
    forall x | x in Of(w, Elements(batch)) ensures x in Of(w, chosen) {
      assert x in Elements(out);
    }
    SubsetSize(Of(w, Elements(batch)), Of(w, chosen));
  }

  /** How much of the quota rows the LIMIT can cut off. */
  lemma CutBound(ready: set<Item>, limit: int, chosen: set<Item>)
    requires limit >= 1 && ready != {} && chosen <= ready
    requires forall w :: |Of(w, chosen)| <= Quota(limit, |Webhooks(ready)|)
    ensures var n := |Webhooks(ready)|;
            n >= 1 && |chosen| <= limit + n - 1 && (limit % n == 0 ==> |chosen| <= limit)
  {
    SomeWebhook(ready);
    QuotaArithmetic(limit, |Webhooks(ready)|);
    TotalAtMost(chosen, Webhooks(ready), Quota(limit, |Webhooks(ready)|));
    RepeatedIsProduct(|Webhooks(ready)|, Quota(limit, |Webhooks(ready)|));
  }

  /** Fair share: of its r ready rows a webhook gets at most q and at least min(q, r) - (N - 1), and
      exactly min(limit / N, r) when N divides the limit. */
  lemma FairShare(ready: set<Item>, limit: int, batch: seq<Item>, w: WebhookId)
    requires limit >= 1 && ready != {} && IsBatch(ready, limit, {}, batch)
    ensures var n, r, got := |Webhooks(ready)|, |Of(w, ready)|, Count(w, batch);
            && n >= 1
            && Min(Quota(limit, n), r) - (n - 1) <= got <= Min(Quota(limit, n), r)
            && (limit % n == 0 ==> got == Min(limit / n, r))
  {
    SomeWebhook(ready);
    QuotaArithmetic(limit, |Webhooks(ready)|);
    var numbered, chosen, out := Parts(ready, limit, {}, batch);
    assert Elements(out) == chosen;
    SizesAgree(out, w);
    CutBound(ready, limit, chosen);
    CountOfPrefix(w, out, |batch|);
  }

  // ----- Size

  function SumOfShares(ws: seq<WebhookId>, ready: set<Item>, q: int): int {
    if ws == [] then 0 else SumOfShares(ws[..|ws| - 1], ready, q) + Min(q, |Of(ws[|ws| - 1], ready)|)
  }

  lemma {:induction false} SharesAddUp(ws: seq<WebhookId>, ready: set<Item>, q: int, chosen: set<Item>)
    requires Distinct(ws)
    requires forall x :: x in chosen ==> x.webhook in ws
    requires forall i :: 0 <= i < |ws| ==> |Of(ws[i], chosen)| == Min(q, |Of(ws[i], ready)|)
    ensures |chosen| == SumOfShares(ws, ready, q)
  {
    if ws == [] {
      assert chosen == {};
    } else {
      var init, w := ws[..|ws| - 1], ws[|ws| - 1];
      var others := chosen - Of(w, chosen);
      forall i | 0 <= i < |init| ensures |Of(init[i], others)| == Min(q, |Of(init[i], ready)|) {
        assert Of(init[i], others) == Of(ws[i], chosen);
      }
      forall x | x in others ensures x.webhook in init {
        var i :| 0 <= i < |ws| && ws[i] == x.webhook;
        assert init[i] == x.webhook;
      }
      SharesAddUp(init, ready, q, others);
      assert chosen == others + Of(w, chosen);
    }
  }

  lemma FullSum(ready: set<Item>, limit: int, ws: seq<WebhookId>)
    requires limit >= 1 && ready != {}
    requires Distinct(ws) && Elements(ws) == Webhooks(ready)
    requires forall w :: w in Webhooks(ready) ==> |Of(w, ready)| >= Quota(limit, |Webhooks(ready)|)
    ensures SumOfShares(ws, ready, Quota(limit, |Webhooks(ready)|)) >= limit
  {
    var n := |Webhooks(ready)|;
    var q := Quota(limit, n);
    forall i | 0 <= i < |ws| ensures |Of(ws[i], ready)| >= q {
      assert ws[i] in Elements(ws);
    }
    FullShares(ws, ready, q);
    ElementsSize(ws);
    SomeWebhook(ready);
    QuotaArithmetic(limit, n);
  }

  /** With `ws` listing the ready webhooks: the batch has min(limit, sum of min(q, r)) rows, and the
      LIMIT cuts at most N - 1 of the sum. */
  lemma BatchSize(ready: set<Item>, limit: int, batch: seq<Item>, ws: seq<WebhookId>)
    requires limit >= 1 && ready != {} && IsBatch(ready, limit, {}, batch)
    requires Distinct(ws) && Elements(ws) == Webhooks(ready)
    ensures var n := |Webhooks(ready)|;
            var q := Quota(limit, n);
            var sum := SumOfShares(ws, ready, q);
            && |batch| == Min(limit, sum)
            && sum - |batch| <= n - 1
            && ((forall w :: w in Webhooks(ready) ==> |Of(w, ready)| >= q) ==> |batch| == limit)
  {
    var n := |Webhooks(ready)|;
    var q := Quota(limit, n);
    var numbered, chosen, out := Parts(ready, limit, {}, batch);
    assert Elements(out) == chosen;
    SizesAgree(out, 0);
    CutBound(ready, limit, chosen);
    forall x | x in chosen ensures x.webhook in ws {
      assert x.webhook in Webhooks(ready);
      assert x.webhook in Elements(ws);
    }
    SharesAddUp(ws, ready, q, chosen);
    if forall w :: w in Webhooks(ready) ==> |Of(w, ready)| >= q {
      FullSum(ready, limit, ws);
    }
  }

  lemma {:induction false} FullShares(ws: seq<WebhookId>, ready: set<Item>, q: int)
    requires forall i :: 0 <= i < |ws| ==> |Of(ws[i], ready)| >= q
    ensures SumOfShares(ws, ready, q) == |ws| * q
  {
    if ws != [] {
      FullShares(ws[..|ws| - 1], ready, q);
    }
  }

  // ----- Draining

  /** Without locks each selection takes at least min(R, q) of the R ready rows. */
  lemma BatchAtLeast(ready: set<Item>, limit: int, batch: seq<Item>)
    requires limit >= 1 && IsBatch(ready, limit, {}, batch)
    ensures Min(|ready|, Quota(limit, |Webhooks(ready)|)) <= |batch| == |Elements(batch)|
    ensures Elements(batch) <= ready
  {
    BatchRows(ready, limit, {}, batch);
    SizesAgree(batch, 0);
    if ready != {} {
      var q := Quota(limit, |Webhooks(ready)|);
      var numbered, chosen, out := Parts(ready, limit, {}, batch);
      assert Elements(out) == chosen;
      SizesAgree(out, 0);
      SomeWebhook(ready);
      QuotaArithmetic(limit, |Webhooks(ready)|);
      if w :| |Of(w, ready)| >= q {
        SubsetSize(Of(w, chosen), chosen);
      } else {
        forall y | y in ready ensures y in chosen {
          SubsetSize(Of(y.webhook, chosen), Of(y.webhook, ready));
          assert y in Of(y.webhook, ready);
        }
        assert chosen == ready;
      }
    }
  }

  /** What is left of the ready rows after some selections, when nothing arrives in between. */
  function Remaining(ready: set<Item>, batches: seq<seq<Item>>): set<Item> {
    if batches == [] then ready else Remaining(ready - Elements(batches[0]), batches[1..])
  }

  ghost predicate ArePolls(ready: set<Item>, limit: int, batches: seq<seq<Item>>) {
    batches == [] ||
    (IsBatch(ready, limit, {}, batches[0]) && ArePolls(ready - Elements(batches[0]), limit, batches[1..]))
  }

  /** Every selection takes `q` rows, or all that are left. */
  predicate EachTakes(ready: set<Item>, batches: seq<seq<Item>>, q: nat)
    decreases |batches|
  {
    batches == [] ||
    var rest := ready - Elements(batches[0]);
    |rest| <= Max(0, |ready| - q) && EachTakes(rest, batches[1..], q)
  }

  lemma {:induction false} TakenInAll(ready: set<Item>, batches: seq<seq<Item>>, q: nat)
    requires EachTakes(ready, batches, q)
    ensures |Remaining(ready, batches)| <= Max(0, |ready| - Repeated(|batches|, q))
    decreases |batches|
  {
    if batches != [] {
      TakenInAll(ready - Elements(batches[0]), batches[1..], q);
    }
  }

  lemma {:induction false} PollsTake(ready: set<Item>, limit: int, batches: seq<seq<Item>>, q: nat)
    requires limit >= 1 && ArePolls(ready, limit, batches) && (ready == {} || q <= Quota(limit, |Webhooks(ready)|))
    ensures EachTakes(ready, batches, q)
    decreases |batches|
  {
    if batches != [] {
      PollTakes(ready, limit, batches[0], q);
      PollsTake(ready - Elements(batches[0]), limit, batches[1..], q);
    }
  }

  lemma PollTakes(ready: set<Item>, limit: int, batch: seq<Item>, q: nat)
    requires limit >= 1 && IsBatch(ready, limit, {}, batch) && (ready == {} || q <= Quota(limit, |Webhooks(ready)|))
    ensures var rest := ready - Elements(batch);
            |rest| <= Max(0, |ready| - q) && (rest == {} || q <= Quota(limit, |Webhooks(rest)|))
  {
    var rest := ready - Elements(batch);
    BatchAtLeast(ready, limit, batch);
    assert |rest| == |ready| - |Elements(batch)|;
    assert Webhooks(rest) <= Webhooks(ready);
    if rest != {} {
      SomeWebhook(rest);
      QuotaAntitone(limit, Webhooks(rest), Webhooks(ready));
    }
  }

  lemma QuotaAntitone(limit: int, fewer: set<WebhookId>, more: set<WebhookId>)
    requires limit >= 1 && fewer <= more && fewer != {}
    ensures Quota(limit, |more|) <= Quota(limit, |fewer|)
  {
    assert more == fewer + (more - fewer);
    CeilDivAntitone(limit, |fewer|, |more|);
  }

  lemma EnoughRounds(rows: nat, q: nat, rounds: nat)
    requires q >= 1 && rounds >= CeilDiv(rows, q)
    ensures rows <= rounds * q
  {
  }

  lemma DrainedAfter(ready: set<Item>, batches: seq<seq<Item>>, q: nat)
    requires q >= 1 && EachTakes(ready, batches, q) && |batches| >= CeilDiv(|ready|, q)
    ensures Remaining(ready, batches) == {}
  {
    TakenInAll(ready, batches, q);
    RepeatedIsProduct(|batches|, q);
    EnoughRounds(|ready|, q, |batches|);
  }

  /** ceil(R / q) polls empty a ready set of R rows, with the quota q of the first poll. */
  lemma Draining(ready: set<Item>, limit: int, batches: seq<seq<Item>>)
    requires limit >= 1 && ArePolls(ready, limit, batches)
    requires |batches| >= CeilDiv(|ready|, Quota(limit, |Webhooks(ready)|))
    ensures Remaining(ready, batches) == {}
  {
    var q := Quota(limit, |Webhooks(ready)|);
    PollsTake(ready, limit, batches, q);
    DrainedAfter(ready, batches, q);
  }

  // ----- Order

  predicate DistinctKeys(ready: set<Item>) {
    forall x, y :: x in ready && y in ready && x.next == y.next && x.created == y.created ==> x == y
  }

  function Before(rows: set<Item>, x: Item): set<Item> {
    set y | y in rows && y != x && KeyLe(y, x)
  }

  /** Fewer than `q` rows of the same webhook come first. */
  predicate InQuota(ready: set<Item>, q: int, x: Item) {
    |Before(Of(x.webhook, ready), x)| < q
  }

  function Candidates(ready: set<Item>, q: int, locked: set<EventId>): set<Item> {
    set x | x in ready && InQuota(ready, q, x) && x.id !in locked
  }

  lemma PrefixIsBefore(s: seq<Item>, rows: set<Item>, k: nat)
    requires Listing(s, rows) && DistinctKeys(rows) && k < |s|
    ensures Elements(s[..k]) == Before(rows, s[k]) && |Before(rows, s[k])| == k
  {
    forall y | y in Before(rows, s[k]) ensures y in Elements(s[..k]) {
      assert y in Elements(s);
      var j :| 0 <= j < |s| && s[j] == y;
      assert s[k] in Elements(s);
      assert j < k;
      assert s[..k][j] == y;
    }
    forall y | y in Elements(s[..k]) ensures y in Before(rows, s[k]) {
      var j :| 0 <= j < k && s[..k][j] == y;
      assert s[j] == y && y in Elements(s);
    }
    SizesAgree(s[..k], 0);
  }

  lemma {:induction false} WithinQuotaMember(s: seq<Item>, q: int, k: nat)
    requires Sorted(s) && Distinct(s) && k < |s|
    ensures s[k] in WithinQuota(s, q) <==> Count(s[k].webhook, s[..k + 1]) <= q
  {
    var init, last := s[..|s| - 1], s[|s| - 1];
    WithinQuotaSublist(init, q);
    if k == |s| - 1 {
      assert s[..k + 1] == s;
      SplitLast(s);
    } else {
      assert init[k] == s[k] && init[..k + 1] == s[..k + 1];
      WithinQuotaMember(init, q, k);
    }
  }

  lemma QuotaMembership(numbered: seq<Item>, ready: set<Item>, q: int)
    requires Listing(numbered, ready) && DistinctKeys(ready)
    ensures Elements(WithinQuota(numbered, q)) == set x | x in ready && InQuota(ready, q, x)
  {
    WithinQuotaSublist(numbered, q);
    forall k | 0 <= k < |numbered|
      ensures numbered[k] in WithinQuota(numbered, q) <==> InQuota(ready, q, numbered[k])
    {
      var x := numbered[k];
      WithinQuotaMember(numbered, q, k);
      PrefixIsBefore(numbered, ready, k);
      assert numbered[..k + 1][..k] == numbered[..k];
      SizesAgree(numbered[..k], x.webhook);
      assert Of(x.webhook, Before(ready, x)) == Before(Of(x.webhook, ready), x);
    }
    forall x | x in ready && InQuota(ready, q, x) ensures x in Elements(WithinQuota(numbered, q)) {
      assert x in Elements(numbered);
      var k :| 0 <= k < |numbered| && numbered[k] == x;
    }
    forall x | x in WithinQuota(numbered, q) ensures x in ready && InQuota(ready, q, x) {
      assert x in Elements(numbered);
      var k :| 0 <= k < |numbered| && numbered[k] == x;
    }
  }

  /** Which rows the query returns, when no two keys are equal: the unlocked rows within their
      webhook's quota that have fewer than `limit` such rows before them. */
  lemma BatchMembership(ready: set<Item>, limit: int, locked: set<EventId>, batch: seq<Item>, x: Item)
    requires IsBatch(ready, limit, locked, batch) && DistinctKeys(ready)
    ensures var candidates := Candidates(ready, Quota(limit, |Webhooks(ready)|), locked);
            x in batch <==> x in candidates && |Before(candidates, x)| < limit
  {
    var q := Quota(limit, |Webhooks(ready)|);
    var candidates := Candidates(ready, q, locked);
    var numbered, chosen, out := Parts(ready, limit, locked, batch);
    QuotaMembership(numbered, ready, q);
    assert Elements(out) == candidates;
    if x in candidates {
      assert x in Elements(out);
      var k :| 0 <= k < |out| && out[k] == x;
      PrefixIsBefore(out, candidates, k);
      forall j | 0 <= j < |batch| ensures batch[j] == x <==> j == k {
        assert batch[j] == out[j];
      }
    } else {
      assert x in batch ==> x in Elements(out);
    }
  }

  /** Without locks and with distinct keys, a webhook's part of the batch is a prefix of its own order. */
  lemma PrefixPerWebhook(ready: set<Item>, limit: int, batch: seq<Item>, x: Item, y: Item)
    requires IsBatch(ready, limit, {}, batch) && DistinctKeys(ready)
    requires x in batch && y in ready && y.webhook == x.webhook && KeyLe(y, x)
    ensures y in batch
  {
    var q := Quota(limit, |Webhooks(ready)|);
    var candidates := Candidates(ready, q, {});
    BatchMembership(ready, limit, {}, batch, x);
    BatchMembership(ready, limit, {}, batch, y);
    assert Before(Of(y.webhook, ready), y) <= Before(Of(x.webhook, ready), x);
    SubsetSize(Before(Of(y.webhook, ready), y), Before(Of(x.webhook, ready), x));
    assert Before(candidates, y) <= Before(candidates, x);
    SubsetSize(Before(candidates, y), Before(candidates, x));
  }

  /** The ready row that is first of all is always in the batch. */
  lemma FirstIsChosen(ready: set<Item>, limit: int, batch: seq<Item>, first: Item)
    requires limit >= 1 && IsBatch(ready, limit, {}, batch) && DistinctKeys(ready)
    requires first in ready && forall y :: y in ready ==> KeyLe(first, y)
    ensures first in batch && batch[0] == first
  {
    var q := Quota(limit, |Webhooks(ready)|);
    BatchMembership(ready, limit, {}, batch, first);
    assert Before(Of(first.webhook, ready), first) == {};
    assert Before(Candidates(ready, q, {}), first) == {};
    var k :| 0 <= k < |batch| && batch[k] == first;
    BatchRows(ready, limit, {}, batch);
    assert batch[0] in batch;
  }

  // ----- The order in terms of the columns

  /** Without locks and with distinct keys: a ready row is in the batch if a row of the same webhook is
      that has a retry time where it has none, a later retry time, or the same and was created later. */
  lemma EarlierRowIsTaken(ready: set<Item>, limit: int, batch: seq<Item>, x: Item, y: Item)
    requires IsBatch(ready, limit, {}, batch) && DistinctKeys(ready)
    requires y in batch && x in ready && x.webhook == y.webhook
    requires || (x.next.None? && y.next.Some?)
             || (x.next.Some? && y.next.Some? && x.next.value < y.next.value)
             || (x.next == y.next && x.created < y.created)
    ensures x in batch
  {
    PrefixPerWebhook(ready, limit, batch, y, x);
  }

  /** The batch lists rows without a retry time first, then earlier retry times before later ones, and
      among equal ones the rows that were created earlier first. */
  lemma BatchInColumnOrder(ready: set<Item>, limit: int, locked: set<EventId>, batch: seq<Item>, i: nat, j: nat)
    requires IsBatch(ready, limit, locked, batch) && i < j < |batch|
    ensures batch[j].next.None? ==> batch[i].next.None?
    ensures batch[i].next.Some? && batch[j].next.Some? ==> batch[i].next.value <= batch[j].next.value
    ensures batch[i].next == batch[j].next ==> batch[i].created <= batch[j].created
  {
    BatchRows(ready, limit, locked, batch);
    assert KeyLe(batch[i], batch[j]);
  }

  lemma {:induction false} MoreBeyond(s: seq<Item>, l: nat, w: WebhookId) returns (k: nat)
    requires l <= |s| && Count(w, s[..l]) < Count(w, s)
    ensures l <= k < |s| && s[k].webhook == w
  {
    if l == |s| || s[|s| - 1].webhook == w {
      assert s[..|s|] == s;
      k := |s| - 1;
    } else {
      assert s[..|s| - 1][..l] == s[..l];
      k := MoreBeyond(s[..|s| - 1], l, w);
    }
  }

  /** Of one webhook, the rows within the quota come before the others. */
  lemma QuotaComesFirst(s: seq<Item>, q: int, z: Item, x: Item)
    requires Sorted(s) && Distinct(s) && z.webhook == x.webhook
    requires z in WithinQuota(s, q) && x in s && x !in WithinQuota(s, q)
    ensures KeyLe(z, x)
  {
    WithinQuotaSublist(s, q);
    var j :| 0 <= j < |s| && s[j] == z;
    var k :| 0 <= k < |s| && s[k] == x;
    WithinQuotaMember(s, q, j);
    WithinQuotaMember(s, q, k);
    if k < j {
      assert s[..j + 1][..k + 1] == s[..k + 1];
      CountOfPrefix(x.webhook, s[..j + 1], k + 1);
    }
  }

  /** When a webhook has not used up its quota, a row that is left behind has some row of its webhook
      before it, or is one itself, that only the LIMIT has cut off. */
  lemma CutOff(ready: set<Item>, limit: int, batch: seq<Item>, x: Item) returns (out: seq<Item>, k: nat)
    requires limit >= 1 && IsBatch(ready, limit, {}, batch) && x in ready && x !in batch
    requires Count(x.webhook, batch) < Quota(limit, |Webhooks(ready)|)
    ensures Sorted(out) && batch <= out && |batch| <= k < |out| && KeyLe(out[k], x)
  {
    var w := x.webhook;
    var numbered, chosen;
    numbered, chosen, out := Parts(ready, limit, {}, batch);
    assert Elements(out) == chosen;
    if x in chosen {
      assert x in Elements(out);
      k :| 0 <= k < |out| && out[k] == x;
      assert forall j :: 0 <= j < |batch| ==> batch[j] == out[j] && out[j] in batch;
    } else {
      MoreChosen(ready, limit, batch, x, chosen, out);
      k := MoreBeyond(out, |batch|, w);
      assert out[k] in Elements(out);
      assert x in Elements(numbered);
      QuotaComesFirst(numbered, Quota(limit, |Webhooks(ready)|), out[k], x);
    }
  }

  lemma MoreChosen(ready: set<Item>, limit: int, batch: seq<Item>, x: Item, chosen: set<Item>, out: seq<Item>)
    requires IsBatch(ready, limit, {}, batch) && x in ready && x !in batch && Listing(out, chosen)
    requires var q := Quota(limit, |Webhooks(ready)|);
             Count(x.webhook, batch) < q && |Of(x.webhook, chosen)| == Min(q, |Of(x.webhook, ready)|)
    ensures Count(x.webhook, batch) < Count(x.webhook, out)
  {
    var w := x.webhook;
    SizesAgree(out, w);
    BatchRows(ready, limit, {}, batch);
    SizesAgree(batch, w);
    assert x in Of(w, ready) && Of(w, Elements(batch)) <= Of(w, ready) - {x};
    SubsetSize(Of(w, Elements(batch)), Of(w, ready) - {x});
  }

  /** What a poll without locks leaves behind although its webhook has not used up its quota does not come
      before any row of the batch. */
  lemma BatchIsEarliest(ready: set<Item>, limit: int, batch: seq<Item>, x: Item, y: Item)
    requires limit >= 1 && IsBatch(ready, limit, {}, batch)
    requires x in ready && x !in batch && y in batch
    requires Count(x.webhook, batch) < Quota(limit, |Webhooks(ready)|)
    ensures x.next.None? ==> y.next.None?
    ensures x.next.Some? && y.next.Some? ==> y.next.value <= x.next.value
    ensures x.next == y.next ==> y.created <= x.created
  {
    var out, k := CutOff(ready, limit, batch, x);
    var i :| 0 <= i < |batch| && batch[i] == y;
    assert out[i] == y && KeyLe(y, out[k]);
  }

  // ----- Retries behind new rows

  function NewRows(w: WebhookId, ready: set<Item>): set<Item> {
    set x | x in Of(w, ready) && x.next.None?
  }

  function Retries(w: WebhookId, ready: set<Item>): set<Item> {
    set x | x in Of(w, ready) && x.next.Some?
  }

  /** Every new row of a webhook is numbered before each of its retries. */
  lemma NewRowsFirst(numbered: seq<Item>, ready: set<Item>, k: nat)
    requires Listing(numbered, ready) && k < |numbered| && numbered[k].next.Some?
    ensures |NewRows(numbered[k].webhook, ready)| <= Count(numbered[k].webhook, numbered[..k])
  {
    var w := numbered[k].webhook;
    SizesAgree(numbered[..k], w);
    forall y | y in NewRows(w, ready) ensures y in Of(w, Elements(numbered[..k])) {
      assert y in Elements(numbered);
      var j :| 0 <= j < |numbered| && numbered[j] == y;
      assert j < k;
      assert numbered[..k][j] == y;
    }
    SubsetSize(NewRows(w, ready), Of(w, Elements(numbered[..k])));
  }

  lemma QuotaSkipsRetries(numbered: seq<Item>, ready: set<Item>, q: int, x: Item)
    requires Listing(numbered, ready) && x.next.Some? && |NewRows(x.webhook, ready)| >= q
    ensures x !in WithinQuota(numbered, q)
  {
    WithinQuotaSublist(numbered, q);
    if x in numbered {
      var k :| 0 <= k < |numbered| && numbered[k] == x;
      NewRowsFirst(numbered, ready, k);
      WithinQuotaMember(numbered, q, k);
      assert numbered[..k + 1][..k] == numbered[..k];
    }
  }

  /** Rows without a retry time come first: when a webhook has `q` of them, none of its retries is
      taken, whatever is locked. */
  lemma RetriesWaitForNewRows(ready: set<Item>, limit: int, locked: set<EventId>, batch: seq<Item>, x: Item)
    requires IsBatch(ready, limit, locked, batch) && x.next.Some?
    requires |NewRows(x.webhook, ready)| >= Quota(limit, |Webhooks(ready)|)
    ensures x !in batch
  {
    var numbered, chosen, out := Parts(ready, limit, locked, batch);
    QuotaSkipsRetries(numbered, ready, Quota(limit, |Webhooks(ready)|), x);
    assert x in batch ==> x in Elements(out);
  }

  /** When the number of ready webhooks divides the limit, a poll without locks takes a retry of a
      webhook that has one exactly when the webhook has fewer than `q` ready rows without a retry time. */
  lemma RetriesTakenExactly(ready: set<Item>, limit: int, batch: seq<Item>, w: WebhookId)
    requires limit >= 1 && IsBatch(ready, limit, {}, batch) && Retries(w, ready) != {}
    requires |Webhooks(ready)| >= 1 && limit % |Webhooks(ready)| == 0
    ensures Retries(w, Elements(batch)) != {} <==> |NewRows(w, ready)| < Quota(limit, |Webhooks(ready)|)
  {
    var x :| x in Retries(w, ready);
    assert x in ready;
    BatchRows(ready, limit, {}, batch);
    if |NewRows(w, ready)| >= Quota(limit, |Webhooks(ready)|) {
      forall y | y in Retries(w, Elements(batch)) ensures false {
        RetriesWaitForNewRows(ready, limit, {}, batch, y);
      }
    } else {
      FairShare(ready, limit, batch, w);
      QuotaArithmetic(limit, |Webhooks(ready)|);
      SizesAgree(batch, w);
      SplitByRetry(w, ready);
      SplitByRetry(w, Elements(batch));
      SubsetSize({x}, Retries(w, ready));
      SubsetSize(NewRows(w, Elements(batch)), NewRows(w, ready));
    }
  }

  lemma SplitByRetry(w: WebhookId, rows: set<Item>)
    ensures |Of(w, rows)| == |NewRows(w, rows)| + |Retries(w, rows)|
  {
    assert Of(w, rows) == NewRows(w, rows) + Retries(w, rows);
    assert NewRows(w, rows) !! Retries(w, rows);
  }

  /** For any limit, with distinct keys: it takes a retry exactly when there are fewer than `q` such rows
      and fewer than `limit` candidates precede the webhook's first retry. */
  lemma FirstRetryTakenExactly(ready: set<Item>, limit: int, batch: seq<Item>, first: Item)
    requires IsBatch(ready, limit, {}, batch) && DistinctKeys(ready)
    requires first in Retries(first.webhook, ready)
    requires forall y :: y in Retries(first.webhook, ready) ==> KeyLe(first, y)
    ensures var q := Quota(limit, |Webhooks(ready)|);
            Retries(first.webhook, Elements(batch)) != {} <==>
            |NewRows(first.webhook, ready)| < q && |Before(Candidates(ready, q, {}), first)| < limit
  {
    BatchRows(ready, limit, {}, batch);
    BatchMembership(ready, limit, {}, batch, first);
    forall y | y in Before(Of(first.webhook, ready), first) ensures y in NewRows(first.webhook, ready) {
      assert y in ready && first in ready;
      assert y.next.Some? ==> y in Retries(first.webhook, ready);
    }
    assert Before(Of(first.webhook, ready), first) == NewRows(first.webhook, ready);
    if y :| y in Retries(first.webhook, Elements(batch)) {
      PrefixPerWebhook(ready, limit, batch, y, first);
    }
    assert first in batch ==> first in Retries(first.webhook, Elements(batch));
  }
}

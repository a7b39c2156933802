/** Logging the steps of a run in batches, and its latest metrics computed twice
    (control-plane/src/application/experiment_tracking_service.py:209-230, :549-561 and :578-583,
    control-plane/src/infrastructure/database/repositories.py:1068-1109, and the stat query of
    control-plane/src/infrastructure/observability/grafana.py:409-419). */
module StepLogging {
  import opened OrderedDict

  type RunId = nat
  type Metrics = map<string, real>

  /** One item as it is sent. */
  datatype Item = Item(step: nat, logged: Metrics, timestamp: Option<nat>)

  /** When the items of a request that come without a time are given one; each step has at most one
      item by then. */
  type Clock = nat -> nat

  datatype Logged = Logged(logged: Metrics, timestamp: nat)

  /** `run_step`, whose runs and steps are unique together. */
  type Steps = map<(RunId, nat), Logged>

  // ---- one item at a time -----------------------------------------------------------

  /** `item.timestamp or datetime.now(...)`. */
  function TimeOf(item: Item, clock: Clock): nat
  {
    if item.timestamp.Some? then item.timestamp.value else clock(item.step)
  }

  function Upsert(t: Steps, run: RunId, clock: Clock, item: Item): Steps
  {
    t[(run, item.step) := Logged(item.logged, TimeOf(item, clock))]
  }

  /** The reference: every item upserted on its own, in order. */
  function UpsertAll(t: Steps, run: RunId, clock: Clock, items: seq<Item>): Steps
    decreases |items|
  {
    if items == [] then t else UpsertAll(Upsert(t, run, clock, items[0]), run, clock, items[1..])
  }

  // ---- batches ----------------------------------------------------------------------

  /** The ordered dictionary of `_normalize_step_items`: the last item of a step, in the place of the
      first. */
  function Grouped(d: Dict<nat, Item>, items: seq<Item>): Dict<nat, Item>
    decreases |items|
  {
    if items == [] then d else Grouped(Put(d, items[0].step, items[0]), items[1..])
  }

  function Normalized(items: seq<Item>): seq<Item> { Values(Grouped([], items)) }

  predicate DistinctSteps(items: seq<Item>)
  {
    forall i, j | 0 <= i < j < |items| :: items[i].step != items[j].step
  }

  /** `upsert_batch`: one INSERT with ON CONFLICT DO UPDATE, which Postgres rejects when it would
      touch a row twice. */
  function UpsertBatch(t: Steps, run: RunId, clock: Clock, items: seq<Item>): Option<Steps>
  {
    if DistinctSteps(items) then Some(UpsertAll(t, run, clock, items)) else None
  }

  /** Items are kept under their own step. */
  ghost predicate Keyed(d: Dict<nat, Item>)
  {
    forall i | 0 <= i < |d| :: d[i].1.step == d[i].0
  }

  lemma {:induction false} PutKeyed(d: Dict<nat, Item>, item: Item)
    requires Keyed(d)
    ensures Keyed(Put(d, item.step, item))
  {
    if d != [] && d[0].0 != item.step {
      PutKeyed(d[1..], item);
    }
  }

  lemma {:induction false} GroupedDistinct(d: Dict<nat, Item>, items: seq<Item>)
    requires DistinctKeys(d) && Keyed(d)
    ensures DistinctKeys(Grouped(d, items)) && Keyed(Grouped(d, items))
    decreases |items|
  {
    if items != [] {
      PutDistinct(d, items[0].step, items[0]);
      PutKeyed(d, items[0]);
      GroupedDistinct(Put(d, items[0].step, items[0]), items[1..]);
    }
  }

  /** A normalised batch never touches a row twice, so its upsert never fails for that reason. */
  lemma NormalizedIsDistinct(items: seq<Item>)
    ensures DistinctSteps(Normalized(items))
  {
    GroupedDistinct([], items);
    var d := Grouped([], items);
    forall i, j | 0 <= i < j < |d|
      ensures Values(d)[i].step != Values(d)[j].step
    {
      assert d[i].0 != d[j].0;
    }
  }

  // ---- a batch is as good as its items one by one -----------------------------------

  lemma UpsertsCommute(t: Steps, run: RunId, clock: Clock, a: Item, b: Item)
    requires a.step != b.step
    ensures Upsert(Upsert(t, run, clock, a), run, clock, b) == Upsert(Upsert(t, run, clock, b), run, clock, a)
  {
  }

  lemma UpsertsOverwrite(t: Steps, run: RunId, clock: Clock, a: Item, b: Item)
    requires a.step == b.step
    ensures Upsert(Upsert(t, run, clock, a), run, clock, b) == Upsert(t, run, clock, b)
  {
  }

  lemma {:induction false} UpsertLast(t: Steps, run: RunId, clock: Clock, items: seq<Item>, item: Item)
    ensures UpsertAll(t, run, clock, items + [item]) == Upsert(UpsertAll(t, run, clock, items), run, clock, item)
    decreases |items|
  {
    if items == [] {
      assert [item][1..] == [];
    } else {
      assert (items + [item])[1..] == items[1..] + [item];
      UpsertLast(Upsert(t, run, clock, items[0]), run, clock, items[1..], item);
    }
  }

  /** An item can be moved in front of items of other steps. */
  lemma {:induction false} UpsertFirst(t: Steps, run: RunId, clock: Clock, items: seq<Item>, item: Item)
    requires forall i | 0 <= i < |items| :: items[i].step != item.step
    ensures Upsert(UpsertAll(t, run, clock, items), run, clock, item) == UpsertAll(Upsert(t, run, clock, item), run, clock, items)
    decreases |items|
  {
    if items != [] {
      UpsertsCommute(t, run, clock, items[0], item);
      UpsertFirst(Upsert(t, run, clock, items[0]), run, clock, items[1..], item);
    }
  }

  /** Putting an item into the dictionary is upserting it after the others. */
  lemma {:induction false} PutIsUpsert(t: Steps, run: RunId, clock: Clock, d: Dict<nat, Item>, item: Item)
    requires DistinctKeys(d) && Keyed(d)
    ensures UpsertAll(t, run, clock, Values(Put(d, item.step, item))) == Upsert(UpsertAll(t, run, clock, Values(d)), run, clock, item)
    decreases |d|
  {
    var put := Put(d, item.step, item);
    if d == [] {
      assert Values(put) == [item] && [item][1..] == [];
    } else if d[0].0 == item.step {
      var rest := Values(d[1..]);
      assert Values(put) == [item] + rest && Values(d) == [d[0].1] + rest;
      assert ([item] + rest)[1..] == rest && ([d[0].1] + rest)[1..] == rest;
      UpsertFirst(Upsert(t, run, clock, d[0].1), run, clock, rest, item);
      UpsertsOverwrite(t, run, clock, d[0].1, item);
    } else {
      PutIsUpsert(Upsert(t, run, clock, d[0].1), run, clock, d[1..], item);
      assert Values(put)[1..] == Values(Put(d[1..], item.step, item));
      assert Values(d)[1..] == Values(d[1..]);
    }
  }

  lemma {:induction false} GroupedIsUpsertAll(t: Steps, run: RunId, clock: Clock, d: Dict<nat, Item>, items: seq<Item>)
    requires DistinctKeys(d) && Keyed(d)
    ensures UpsertAll(t, run, clock, Values(Grouped(d, items))) == UpsertAll(UpsertAll(t, run, clock, Values(d)), run, clock, items)
    decreases |items|
  {
    if items != [] {
      PutDistinct(d, items[0].step, items[0]);
      PutKeyed(d, items[0]);
      PutIsUpsert(t, run, clock, d, items[0]);
      GroupedIsUpsertAll(t, run, clock, Put(d, items[0].step, items[0]), items[1..]);
    }
  }

  /** Upserting the normalised batch gives the table that its items give one at a time. */
  lemma BatchRefinesSingles(t: Steps, run: RunId, clock: Clock, items: seq<Item>)
    ensures UpsertBatch(t, run, clock, Normalized(items)) == Some(UpsertAll(t, run, clock, items))
  {
    NormalizedIsDistinct(items);
    GroupedIsUpsertAll(t, run, clock, [], items);
    assert Values<nat, Item>([]) == [];
  }

  // ---- several requests -------------------------------------------------------------

  /** A batch, and the times of its request. */
  type Batch = (seq<Item>, Clock)

  /** Logging a list of batches one after the other. */
  function LogBatches(t: Steps, run: RunId, batches: seq<Batch>): Option<Steps>
    decreases |batches|
  {
    if batches == [] then Some(t)
    else
      match UpsertBatch(t, run, batches[0].1, Normalized(batches[0].0))
      case None => None
      case Some(next) => LogBatches(next, run, batches[1..])
  }

  function Flat(batches: seq<Batch>): seq<Item>
  {
    if batches == [] then [] else batches[0].0 + Flat(batches[1..])
  }

  lemma {:induction false} UpsertConcat(t: Steps, run: RunId, clock: Clock, a: seq<Item>, b: seq<Item>)
    ensures UpsertAll(t, run, clock, a + b) == UpsertAll(UpsertAll(t, run, clock, a), run, clock, b)
    decreases |a|
  {
    if a == [] {
      assert a + b == b;
    } else {
      assert (a + b)[1..] == a[1..] + b;
      UpsertConcat(Upsert(t, run, clock, a[0]), run, clock, a[1..], b);
    }
  }

  /** Two tables that differ in times at most, and only where the items leave them open. */
  predicate Alike(t: Steps, u: Steps, timed: bool)
  {
    t.Keys == u.Keys && forall k | k in t :: t[k].logged == u[k].logged && (timed ==> t[k].timestamp == u[k].timestamp)
  }

  predicate Timed(items: seq<Item>) { forall i | 0 <= i < |items| :: items[i].timestamp.Some? }

  lemma {:induction false} ClocksApart(t: Steps, u: Steps, run: RunId, c: Clock, d: Clock, items: seq<Item>, timed: bool)
    requires Alike(t, u, timed) && (timed ==> Timed(items))
    ensures Alike(UpsertAll(t, run, c, items), UpsertAll(u, run, d, items), timed)
    decreases |items|
  {
    if items != [] {
      ClocksApart(Upsert(t, run, c, items[0]), Upsert(u, run, d, items[0]), run, c, d, items[1..], timed);
    }
  }

  lemma {:induction false} BatchesRefineSingles(t: Steps, u: Steps, run: RunId, batches: seq<Batch>, clock: Clock, timed: bool)
    requires Alike(t, u, timed) && (timed ==> Timed(Flat(batches)))
    ensures LogBatches(t, run, batches).Some?
    ensures Alike(LogBatches(t, run, batches).value, UpsertAll(u, run, clock, Flat(batches)), timed)
    decreases |batches|
  {
    if batches != [] {
      var items, own := batches[0].0, batches[0].1;
      TimedParts(items, Flat(batches[1..]));
      BatchRefinesSingles(t, run, own, items);
      ClocksApart(t, u, run, own, clock, items, timed);
      BatchesRefineSingles(UpsertAll(t, run, own, items), UpsertAll(u, run, clock, items), run, batches[1..], clock, timed);
      UpsertConcat(u, run, clock, items, Flat(batches[1..]));
    }
  }

  lemma TimedParts(a: seq<Item>, b: seq<Item>)
    ensures Timed(a + b) ==> Timed(a) && Timed(b)
  {
    forall i | Timed(a + b) && 0 <= i < |b|
      ensures b[i].timestamp.Some?
    {
      assert b[i] == (a + b)[|a| + i];
    }
    forall i | Timed(a + b) && 0 <= i < |a|
      ensures a[i].timestamp.Some?
    {
      assert a[i] == (a + b)[i];
    }
  }

  lemma AlikeSame(t: Steps, u: Steps, v: Steps)
    requires Alike(t, v, true) && Alike(u, v, true)
    ensures t == u
  {
    forall k | k in t
      ensures k in u && t[k] == u[k]
    {
      assert k in v;
    }
  }

  /** However a list of items is cut into batches, and whenever these are sent, the table comes out
      with the same data, and with the same times if the items bring their own. */
  lemma CuttingDoesNotMatter(t: Steps, run: RunId, a: seq<Batch>, b: seq<Batch>)
    requires Flat(a) == Flat(b)
    ensures LogBatches(t, run, a).Some? && LogBatches(t, run, b).Some?
    ensures Alike(LogBatches(t, run, a).value, LogBatches(t, run, b).value, false)
    ensures Timed(Flat(a)) ==> LogBatches(t, run, a) == LogBatches(t, run, b)
  {
    var clock := (step: nat) => 0;
    BatchesRefineSingles(t, t, run, a, clock, false);
    BatchesRefineSingles(t, t, run, b, clock, false);
    if Timed(Flat(a)) {
      BatchesRefineSingles(t, t, run, a, clock, true);
      BatchesRefineSingles(t, t, run, b, clock, true);
      AlikeSame(LogBatches(t, run, a).value, LogBatches(t, run, b).value, UpsertAll(t, run, clock, Flat(a)));
    }
  }

  /** What the table says after logging: the last item of a step wins, other rows stay. */
  lemma {:induction false} LastItemWins(t: Steps, run: RunId, clock: Clock, items: seq<Item>, key: (RunId, nat))
    ensures if key.0 == run && exists i :: 0 <= i < |items| && items[i].step == key.1
            then exists i :: 0 <= i < |items| && items[i].step == key.1
                   && (forall j | i < j < |items| :: items[j].step != key.1)
                   && key in UpsertAll(t, run, clock, items)
                   && UpsertAll(t, run, clock, items)[key] == Logged(items[i].logged, TimeOf(items[i], clock))
            else (key in UpsertAll(t, run, clock, items) <==> key in t)
                 && (key in t ==> UpsertAll(t, run, clock, items)[key] == t[key])
    decreases |items|
  {
    if items != [] {
      var front, last := items[..|items| - 1], items[|items| - 1];
      assert items == front + [last];
      UpsertLast(t, run, clock, front, last);
      LastItemWins(t, run, clock, front, key);
      if key.0 == run && last.step != key.1 && exists i :: 0 <= i < |items| && items[i].step == key.1 {
        var i :| 0 <= i < |items| && items[i].step == key.1;
        assert front[i].step == key.1;
      }
    }
  }
}

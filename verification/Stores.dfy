/**
 * The two batch stores: what one `store` call does with the rows of a chunk, through retries, the
 * fallback to one row at a time, and the older one-event procedure of PostgreSQL.
 */
module Stores {
  /** How the server answers one statement. `Down` is the transient class of errors. */
  datatype Reply = Done | Down | UndefinedFunction | UniqueViolation | Rejected

  /** `store_cdevents`, `store_cdevent`, or an SQL statement of the ClickHouse template. */
  datatype Form = ManyProcedure | OneProcedure | Statement

  /** One statement sent for the rows `lo..hi` of the chunk, and its answer. */
  datatype Call = Call(form: Form, lo: nat, hi: nat, reply: Reply)

  /** The sink: PostgreSQL, or ClickHouse with a template that can, or cannot, carry several rows. */
  datatype Kind = Postgres | ClickHouse(multiRow: bool)

  /** `UndefinedFunction` from the many-rows procedure only says that the schema is older. */
  predicate OlderSchema(c: Call) { c.form == ManyProcedure && c.reply == UndefinedFunction }

  /** The call decides the fate of row `i`: an insert containing it succeeded, or it failed alone for good. */
  predicate Settles(c: Call, i: nat) {
    && c.lo <= i < c.hi
    && (c.reply == Done || (c.hi == c.lo + 1 && c.reply != Down && !OlderSchema(c)))
  }

  ghost predicate Settled(calls: seq<Call>, i: nat) {
    exists k :: 0 <= k < |calls| && Settles(calls[k], i)
  }

  /** Every row `lo..hi` of the chunk has its fate. */
  ghost predicate SettledAll(calls: seq<Call>, lo: nat, hi: nat) {
    forall i :: lo <= i < hi ==> Settled(calls, i)
  }

  /** No call of the log carries a row from outside `lo..hi`. */
  ghost predicate Within(calls: seq<Call>, lo: nat, hi: nat) {
    forall k :: 0 <= k < |calls| ==> lo <= calls[k].lo <= calls[k].hi <= hi
  }

  ghost predicate EndsDown(calls: seq<Call>) {
    calls != [] && calls[|calls| - 1].reply == Down
  }

  /** How many calls met a transient error. */
  ghost function Downs(calls: seq<Call>): nat {
    if calls == [] then 0 else Downs(calls[..|calls| - 1]) + if calls[|calls| - 1].reply == Down then 1 else 0
  }

  lemma {:induction false} DownsConcat(calls: seq<Call>, more: seq<Call>)
    ensures Downs(calls + more) == Downs(calls) + Downs(more)
    decreases |more|
  {
    if more == [] {
      assert calls + more == calls;
    } else {
      DownsConcat(calls, more[..|more| - 1]);
      assert (calls + more)[..|calls + more| - 1] == calls + more[..|more| - 1];
    }
  }

  lemma NoDowns(calls: seq<Call>)
    requires forall k :: 0 <= k < |calls| ==> calls[k].reply != Down
    ensures Downs(calls) == 0
  {
    if calls != [] { NoDowns(calls[..|calls| - 1]); }
  }

  lemma DownsOne(call: Call)
    ensures Downs([call]) == if call.reply == Down then 1 else 0
  {
    assert [call][..0] == [];
  }

  lemma SettledGrows(calls: seq<Call>, more: seq<Call>, lo: nat, hi: nat)
    requires SettledAll(calls, lo, hi) || SettledAll(more, lo, hi)
    ensures SettledAll(calls + more, lo, hi)
  {
    forall i | lo <= i < hi
      ensures Settled(calls + more, i)
    {
      if SettledAll(calls, lo, hi) {
        assert Settled(calls, i);
        var k :| 0 <= k < |calls| && Settles(calls[k], i);
        assert Settles((calls + more)[k], i);
      } else {
        assert Settled(more, i);
        var k :| 0 <= k < |more| && Settles(more[k], i);
        assert Settles((calls + more)[|calls| + k], i);
      }
    }
  }

  lemma SettledByOne(calls: seq<Call>, k: nat, lo: nat, hi: nat)
    requires k < |calls| && calls[k].lo == lo && calls[k].hi == hi
    requires calls[k].reply == Done || (hi == lo + 1 && calls[k].reply != Down && !OlderSchema(calls[k]))
    ensures SettledAll(calls, lo, hi)
  {
    forall i | lo <= i < hi
      ensures Settled(calls, i)
    {
      assert Settles(calls[k], i);
    }
  }

  lemma SettledJoins(calls: seq<Call>, lo: nat, hi: nat)
    requires SettledAll(calls, lo, hi) && SettledAll(calls, hi, hi + 1)
    ensures SettledAll(calls, lo, hi + 1)
  {
  }

  /** Before a statement of the one-event procedure, at most an unknown function has been met. */
  lemma NothingYet(calls: seq<Call>, lo: nat, hi: nat)
    requires calls == [] || (Within(calls, lo, hi) && forall k :: 0 <= k < |calls| ==> calls[k].reply != Down)
    ensures Within(calls, lo, hi) && SettledAll(calls, lo, lo) && Downs(calls) == 0
  {
    NoDowns(calls);
  }

  lemma WithinGrows(calls: seq<Call>, more: seq<Call>, lo: nat, hi: nat)
    requires Within(calls, lo, hi) && Within(more, lo, hi)
    ensures Within(calls + more, lo, hi)
  {
  }

  /** The first `n` statements carry the whole chunk, the others one row each, and only after a lasting error. */
  ghost predicate WholeThenSingle(calls: seq<Call>, size: nat, n: nat) {
    && n <= |calls|
    && (forall k :: 0 <= k < n ==> calls[k].lo == 0 && calls[k].hi == size)
    && (forall k :: n <= k < |calls| ==> calls[k].hi == calls[k].lo + 1)
    && (0 < n < |calls| ==> calls[n - 1].reply != Done && calls[n - 1].reply != Down)
  }

  lemma WithinOne(call: Call)
    requires call.lo <= call.hi
    ensures Within([call], call.lo, call.hi)
  {
  }

  /** The one-event procedure: only a transient error leaves its event unsettled. */
  lemma NextEvent(before: seq<Call>, lo: nat, i: nat, hi: nat, reply: Reply)
    requires Within(before, lo, hi) && SettledAll(before, lo, i) && Downs(before) == 0 && lo <= i < hi
    ensures var after := before + [Call(OneProcedure, i, i + 1, reply)];
            && Within(after, lo, hi) && Downs(after) == (if reply == Down then 1 else 0)
            && (reply != Down ==> SettledAll(after, lo, i + 1))
  {
    var one := [Call(OneProcedure, i, i + 1, reply)];
    WithinGrows(before, one, lo, hi);
    DownsConcat(before, one);
    DownsOne(one[0]);
    hide Downs, Within;
    if reply != Down {
      SettledByOne(one, 0, i, i + 1);
      SettledGrows(before, one, lo, i);
      SettledGrows(before, one, i, i + 1);
      SettledJoins(before + one, lo, i);
    }
  }

  /** A row that no successful insert contained was refused, for good, in a statement that carried only it. */
  lemma OnlyBadRowsAreLost(calls: seq<Call>, i: nat)
    requires Settled(calls, i)
    requires forall k :: 0 <= k < |calls| && calls[k].lo <= i < calls[k].hi ==> calls[k].reply != Done
    ensures exists k :: 0 <= k < |calls| && calls[k].lo == i && calls[k].hi == i + 1
                        && (calls[k].reply == Rejected || calls[k].reply == UniqueViolation
                            || (calls[k].reply == UndefinedFunction && calls[k].form != ManyProcedure))
  {
    var k :| 0 <= k < |calls| && Settles(calls[k], i);
  }

  /** The statements behind one `store` call that returned true. */
  datatype Receipt<T> = Receipt(rows: seq<T>, calls: seq<Call>)

  function RowsOf<T>(receipts: seq<Receipt<T>>): seq<T> {
    if receipts == [] then [] else RowsOf(receipts[..|receipts| - 1]) + receipts[|receipts| - 1].rows
  }

  ghost predicate Honest<T>(receipts: seq<Receipt<T>>) {
    forall r :: 0 <= r < |receipts| ==> SettledAll(receipts[r].calls, 0, |receipts[r].rows|)
  }

  /** Every row ever handed to the store can be traced to the statement that decided its fate. */
  lemma {:induction false} RowFate<T>(receipts: seq<Receipt<T>>, j: nat) returns (r: nat, i: nat)
    requires Honest(receipts) && j < |RowsOf(receipts)|
    ensures r < |receipts| && i < |receipts[r].rows|
    ensures receipts[r].rows[i] == RowsOf(receipts)[j] && j == |RowsOf(receipts[..r])| + i
    ensures Settled(receipts[r].calls, i)
    decreases |receipts|
  {
    var init, last := receipts[..|receipts| - 1], receipts[|receipts| - 1];
    if j < |RowsOf(init)| {
      r, i := RowFate(init, j);
      assert init[..r] == receipts[..r];
    } else {
      r, i := |init|, j - |RowsOf(init)|;
      assert SettledAll(last.calls, 0, |last.rows|);
    }
  }

  class Target {
    const kind: Kind
    /** `USE_STORE_CDEVENT`: the schema only knows the one-event procedure. */
    var legacy: bool
    /** Statements sent by the current `store` call. */
    ghost var calls: seq<Call>

    constructor (kind: Kind)
      ensures this.kind == kind && !legacy && calls == []
    {
      this.kind, legacy, calls := kind, false, [];
    }

    /** One statement; the server may answer anything. */
    method Execute(form: Form, lo: nat, hi: nat) returns (reply: Reply)
      modifies `calls
      ensures calls == old(calls) + [Call(form, lo, hi, reply)]
    {
      reply := *;
      calls := calls + [Call(form, lo, hi, reply)];
    }

    /** `store_events_batch` on the rows `lo..hi`. */
    method StoreEventsBatch(lo: nat, hi: nat) returns (reply: Reply)
      requires lo < hi
      modifies this
      ensures old(calls) < calls && Within(calls[|old(calls)|..], lo, hi)
      ensures reply == Done ==> SettledAll(calls[|old(calls)|..], lo, hi)
      ensures reply == Down ==> EndsDown(calls)
      ensures Downs(calls[|old(calls)|..]) == if reply == Down then 1 else 0
      ensures reply != Done && reply != Down ==>
                Call(ManyProcedure, lo, hi, reply) == calls[|calls| - 1] && reply != UndefinedFunction
    {
      hide SettledAll, Settles, Downs, Within;
      var shared: bool := *;  // the flag is process-wide, another sink may have set it
      legacy := legacy || shared;
      if !legacy {
        reply := Execute(ManyProcedure, lo, hi);
        assert calls[|old(calls)|..] == [Call(ManyProcedure, lo, hi, reply)];
        DownsOne(Call(ManyProcedure, lo, hi, reply));
        WithinOne(Call(ManyProcedure, lo, hi, reply));
        if reply != UndefinedFunction {
          if reply == Done {
            SettledByOne(calls[|old(calls)|..], 0, lo, hi);
          }
          return;
        }
        legacy := true;
      }
      NothingYet(calls[|old(calls)|..], lo, hi);
      for i := lo to hi
        invariant old(calls) <= calls && Within(calls[|old(calls)|..], lo, hi)
        invariant i > lo ==> |old(calls)| < |calls|
        invariant SettledAll(calls[|old(calls)|..], lo, i) && Downs(calls[|old(calls)|..]) == 0
      {
        ghost var before := calls[|old(calls)|..];
        reply := Execute(OneProcedure, i, i + 1);
        assert calls[|old(calls)|..] == before + [Call(OneProcedure, i, i + 1, reply)];
        NextEvent(before, lo, i, hi, reply);
        if reply == Down {
          return;
        }
        // a duplicate is ignored, any other error drops just this event
      }
      reply := Done;
    }

    /** The operation of this sink: one batch call, or one SQL statement. */
    method Attempt(lo: nat, hi: nat) returns (reply: Reply)
      requires lo < hi
      modifies this
      ensures old(calls) < calls && Within(calls[|old(calls)|..], lo, hi)
      ensures reply == Done ==> SettledAll(calls[|old(calls)|..], lo, hi)
      ensures reply == Down ==> EndsDown(calls)
      ensures reply != Done && reply != Down && hi == lo + 1 ==> SettledAll(calls[|old(calls)|..], lo, hi)
      ensures Downs(calls[|old(calls)|..]) == if reply == Down then 1 else 0
      ensures kind.ClickHouse? ==> calls == old(calls) + [Call(Statement, lo, hi, reply)]
    {
      hide Downs;
      if kind.Postgres? {
        reply := StoreEventsBatch(lo, hi);
      } else {
        reply := Execute(Statement, lo, hi);
        assert calls[|old(calls)|..] == [Call(Statement, lo, hi, reply)];
        DownsOne(Call(Statement, lo, hi, reply));
      }
      if reply != Down && ((reply == Done && kind.ClickHouse?) || (reply != Done && hi == lo + 1)) {
        ghost var k := |calls| - |old(calls)| - 1;
        assert calls[|old(calls)|..][k] == calls[|calls| - 1];
        SettledByOne(calls[|old(calls)|..], k, lo, hi);
      }
    }

    /**
     * `retry_on_transient`: the policy grants up to `grants` retries after transient errors, and each one
     * granted is taken: only the transient error after the last of them is given back.
     */
    method RetryOnTransient(lo: nat, hi: nat, grants: nat) returns (reply: Reply)
      requires lo < hi
      modifies this
      ensures old(calls) < calls && Within(calls[|old(calls)|..], lo, hi)
      ensures reply == Done ==> SettledAll(calls[|old(calls)|..], lo, hi)
      ensures reply == Down ==> EndsDown(calls)
      ensures reply != Done && reply != Down && hi == lo + 1 ==> SettledAll(calls[|old(calls)|..], lo, hi)
      ensures if reply == Down then Downs(calls[|old(calls)|..]) == grants + 1
              else Downs(calls[|old(calls)|..]) <= grants
      ensures kind.ClickHouse? ==>
                && calls[|calls| - 1].reply == reply
                && forall k :: |old(calls)| <= k < |calls| ==> calls[k].lo == lo && calls[k].hi == hi
    {
      hide Downs;
      NoDowns(calls[|old(calls)|..]);
      var retries := 0;
      while true
        invariant old(calls) <= calls && Within(calls[|old(calls)|..], lo, hi)
        invariant retries <= grants && Downs(calls[|old(calls)|..]) == retries
        invariant kind.ClickHouse? ==>
                    forall k :: |old(calls)| <= k < |calls| ==> calls[k].lo == lo && calls[k].hi == hi
        decreases grants - retries
      {
        ghost var before := calls;
        reply := Attempt(lo, hi);
        ghost var earlier, now := before[|old(calls)|..], calls[|before|..];
        assert calls[|old(calls)|..] == earlier + now;
        WithinGrows(earlier, now, lo, hi);
        DownsConcat(earlier, now);
        if SettledAll(now, lo, hi) {
          SettledGrows(earlier, now, lo, hi);
        }
        if reply != Down || retries >= grants {
          return;
        }
        retries := retries + 1;
      }
    }

    /** Rows one by one, each with its own retries; only a transient error gives up. */
    method StoreOneByOne(size: nat, grants: nat) returns (ok: bool)
      modifies this
      ensures old(calls) <= calls && Within(calls[|old(calls)|..], 0, size)
      ensures ok ==> SettledAll(calls[|old(calls)|..], 0, size)
      ensures !ok ==> EndsDown(calls) && Downs(calls[|old(calls)|..]) > grants
      ensures kind.ClickHouse? ==> forall k :: |old(calls)| <= k < |calls| ==> calls[k].hi == calls[k].lo + 1
    {
      hide Downs;
      for i := 0 to size
        invariant old(calls) <= calls && Within(calls[|old(calls)|..], 0, size)
        invariant SettledAll(calls[|old(calls)|..], 0, i)
        invariant kind.ClickHouse? ==> forall k :: |old(calls)| <= k < |calls| ==> calls[k].hi == calls[k].lo + 1
      {
        ghost var before := calls;
        var reply := RetryOnTransient(i, i + 1, grants);
        ghost var earlier, now := before[|old(calls)|..], calls[|before|..];
        assert calls[|old(calls)|..] == earlier + now;
        WithinGrows(earlier, now, 0, size);
        DownsConcat(earlier, now);
        if reply == Down {
          return false;
        }
        SettledGrows(earlier, now, i, i + 1);
        SettledGrows(earlier, now, 0, i);
      }
      return true;
    }

    /**
     * `BatchStore::store` on a chunk of `size` rows: true means every row was inserted, or failed for good
     * in a statement of its own, so a bad row never takes another one along; false means the last statement
     * met a transient error, and so did as many as the policy grants retries.
     */
    method Store(size: nat, grants: nat) returns (ok: bool)
      requires size > 0
      modifies this
      ensures Within(calls, 0, size)
      ensures ok ==> SettledAll(calls, 0, size)
      ensures !ok ==> EndsDown(calls) && Downs(calls) > grants
      ensures kind == ClickHouse(true) ==> exists n :: n > 0 && WholeThenSingle(calls, size, n)
      ensures kind == ClickHouse(false) ==> WholeThenSingle(calls, size, 0)
    {
      hide Downs;
      calls := [];
      if kind.Postgres? || kind.multiRow {
        var reply := RetryOnTransient(0, size, grants);
        assert calls[0..] == calls;
        assert kind.ClickHouse? ==> WholeThenSingle(calls, size, |calls|);
        if reply == Done || reply == Down || size == 1 {
          return reply != Down;
        }
      }
      ghost var before := calls;
      ok := StoreOneByOne(size, grants);
      assert calls == before + calls[|before|..];
      DownsConcat(before, calls[|before|..]);
      assert kind.ClickHouse? ==> WholeThenSingle(calls, size, |before|);
      WithinGrows(before, calls[|before|..], 0, size);
      if ok {
        SettledGrows(before, calls[|before|..], 0, size);
      }
    }
  }
}

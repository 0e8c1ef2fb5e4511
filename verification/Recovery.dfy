/** The manager's recovery: every transaction begun and never decided is aborted. */
module Recovery {
  import opened Types
  import opened TxLog

  /** BEGIN is always the first record of its transaction. */
  ghost predicate FreshBegins(log: Log) {
    forall i, j :: 0 <= i < j < |log| && log[j].kind == LBegin ==> log[i].tid != log[j].tid
  }

  predicate DecidedIn(log: Log, tid: nat, from: nat) {
    exists j :: from <= j < |log| && log[j].tid == tid && Decides(log[j].kind)
  }

  ghost predicate Decided(log: Log, tid: nat) {
    DecidedIn(log, tid, 0)
  }

  ghost predicate Undecided(log: Log, tid: nat) {
    Logged(log, LBegin, tid) && !Decided(log, tid)
  }

  /** The records the outer loop has appended once it has passed the first n records. */
  function Aborts(log: Log, n: nat): seq<Entry>
    requires n <= |log|
  {
    if n == 0 then []
    else if log[n - 1].kind == LBegin && !DecidedIn(log, log[n - 1].tid, n - 1) then
      Aborts(log, n - 1) + [Record(LAbort, log[n - 1].tid)]
    else Aborts(log, n - 1)
  }

  function RecoveryAborts(log: Log): seq<Entry> {
    Aborts(log, |log|)
  }

  /** Whether a BEGIN is followed by a decision does not depend on where the search starts. */
  lemma DecidedAfterBegin(log: Log, i: nat)
    requires FreshBegins(log) && i < |log| && log[i].kind == LBegin
    ensures DecidedIn(log, log[i].tid, i) <==> Decided(log, log[i].tid)
  {
  }

  ghost predicate BegunBefore(log: Log, n: nat, tid: nat) {
    exists i :: 0 <= i < n && i < |log| && log[i].kind == LBegin && log[i].tid == tid
  }

  /** Each record aborts a transaction that is begun and undecided in the log. */
  ghost predicate AbortsOnly(log: Log, a: seq<Entry>) {
    forall k :: 0 <= k < |a| ==> a[k] == Record(LAbort, a[k].tid) && Undecided(log, a[k].tid)
  }

  ghost predicate DistinctTids(a: seq<Entry>) {
    forall k, m :: 0 <= k < m < |a| ==> a[k].tid != a[m].tid
  }

  lemma {:induction false} AbortsExactly(log: Log, n: nat)
    requires FreshBegins(log) && n <= |log|
    ensures AbortsOnly(log, Aborts(log, n))
    ensures DistinctTids(Aborts(log, n))
    ensures forall x :: x in Aborts(log, n) ==> BegunBefore(log, n, x.tid)
    ensures forall i :: 0 <= i < n && log[i].kind == LBegin && !Decided(log, log[i].tid) ==>
              Record(LAbort, log[i].tid) in Aborts(log, n)
  {
    if n > 0 {
      AbortsExactly(log, n - 1);
      var before, x := Aborts(log, n - 1), log[n - 1];
      if x.kind == LBegin {
        DecidedAfterBegin(log, n - 1);
        assert Logged(log, LBegin, x.tid);
        forall k | 0 <= k < |before| ensures before[k].tid != x.tid {
          assert before[k] in before;
          assert BegunBefore(log, n - 1, before[k].tid);
        }
      }
    }
  }

  /** Recovery appends exactly one ABORT for every undecided transaction and nothing for
      any other. */
  lemma RecoveryExactly(log: Log, tid: nat)
    requires FreshBegins(log)
    ensures Undecided(log, tid) <==> Record(LAbort, tid) in RecoveryAborts(log)
    ensures AbortsOnly(log, RecoveryAborts(log))
    ensures DistinctTids(RecoveryAborts(log))
  {
    AbortsExactly(log, |log|);
    if Undecided(log, tid) {
      var i :| 0 <= i < |log| && log[i].kind == LBegin && log[i].tid == tid;
      assert Record(LAbort, log[i].tid) in RecoveryAborts(log);
    }
  }

  /** Aborting k of the undecided transactions decides those and no others. */
  lemma DecidedAfterAborts(log: Log, a: seq<Entry>, tid: nat)
    requires forall k :: 0 <= k < |a| ==> a[k].kind == LAbort
    ensures Decided(log + a, tid) <==> Decided(log, tid) || exists k :: 0 <= k < |a| && a[k].tid == tid
  {
    var more := log + a;
    if Decided(log, tid) {
      var j :| 0 <= j < |log| && log[j].tid == tid && Decides(log[j].kind);
      assert more[j].tid == tid;
    }
    if k :| 0 <= k < |a| && a[k].tid == tid {
      assert more[|log| + k].tid == tid;
    }
    if Decided(more, tid) {
      var j :| 0 <= j < |more| && more[j].tid == tid && Decides(more[j].kind);
      if j < |log| {
        assert log[j].tid == tid;
      } else {
        assert a[j - |log|].tid == tid;
      }
    }
  }

  lemma FreshBeginsAppend(log: Log, a: seq<Entry>)
    requires FreshBegins(log)
    requires forall k :: 0 <= k < |a| ==> a[k].kind != LBegin
    ensures FreshBegins(log + a)
  {
  }

  lemma {:induction false} AbortsPrefix(log: Log, n: nat, m: nat)
    requires n <= m <= |log|
    ensures Aborts(log, n) <= Aborts(log, m)
    decreases m
  {
    if n < m {
      AbortsPrefix(log, n, m - 1);
    }
  }

  /** Rescanning the first n records after k aborts were added finds the rest of them. */
  lemma {:induction false} AbortsResume(log: Log, k: nat, n: nat)
    requires FreshBegins(log) && k <= |RecoveryAborts(log)| && n <= |log|
    ensures var a := RecoveryAborts(log);
            var found := Aborts(log, n);
            Aborts(log + a[..k], n) == if |found| <= k then [] else found[k..]
  {
    var a := RecoveryAborts(log);
    var more := log + a[..k];
    if n > 0 {
      AbortsResume(log, k, n - 1);
      var x, before := log[n - 1], Aborts(log, n - 1);
      assert more[n - 1] == x;
      if x.kind == LBegin {
        RecoveryExactly(log, x.tid);
        FreshBeginsAppend(log, a[..k]);
        DecidedAfterBegin(log, n - 1);
        DecidedAfterBegin(more, n - 1);
        DecidedAfterAborts(log, a[..k], x.tid);
        AbortsPrefix(log, n, |log|);
        if !Decided(log, x.tid) {
          assert Aborts(log, n) == before + [Record(LAbort, x.tid)];
          assert a[|before|] == Aborts(log, n)[|before|];
          assert Decided(more, x.tid) <==> |before| < k by {
            if |before| < k {
              assert a[..k][|before|].tid == x.tid;
            }
          }
        }
      }
    }
  }

  lemma {:induction false} AbortsOfTail(log: Log, a: seq<Entry>, n: nat)
    requires forall k :: 0 <= k < |a| ==> a[k].kind != LBegin
    requires |log| <= n <= |log| + |a|
    ensures Aborts(log + a, n) == Aborts(log + a, |log|)
    decreases n
  {
    if n > |log| {
      AbortsOfTail(log, a, n - 1);
      assert (log + a)[n - 1] == a[n - 1 - |log|];
    }
  }

  /** A recovery interrupted after any number of appends and then run again leaves the
      log that an undisturbed recovery leaves. */
  lemma RecoveryResumes(log: Log, k: nat)
    requires FreshBegins(log) && k <= |RecoveryAborts(log)|
    ensures var stopped := log + RecoveryAborts(log)[..k];
            stopped + RecoveryAborts(stopped) == log + RecoveryAborts(log)
  {
    var a := RecoveryAborts(log);
    var stopped := log + a[..k];
    RecoveryExactly(log, 0);
    AbortsOfTail(log, a[..k], |stopped|);
    AbortsResume(log, k, |log|);
    assert RecoveryAborts(stopped) == a[k..];
    assert stopped + a[k..] == log + (a[..k] + a[k..]);
    assert a == a[..k] + a[k..];
  }

  /** A second recovery appends nothing. */
  lemma RecoveryIdempotent(log: Log)
    requires FreshBegins(log)
    ensures RecoveryAborts(log + RecoveryAborts(log)) == []
  {
    var a := RecoveryAborts(log);
    RecoveryResumes(log, |a|);
    assert a[..|a|] == a;
    var full := log + a;
    assert |full + RecoveryAborts(full)| == |full|;
  }
}

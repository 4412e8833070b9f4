/** Which writes of a log take effect: at most once always, exactly once when every clerk's numbers rise. */
module KvExactlyOnce {
  import opened KvState

  /** The write at p is not filtered out. */
  ghost predicate Effective(log: seq<Command>, p: nat)
    requires p < |log|
  {
    log[p].Write? && !Repeated(State(log[..p]), log[p].clientId, log[p].msgId)
  }

  ghost predicate SameClient(log: seq<Command>, q: nat, p: nat)
    requires q < |log| && p < |log|
  {
    log[q].Write? && log[p].Write? && log[q].clientId == log[p].clientId
  }

  ghost predicate FirstTime(log: seq<Command>, p: nat)
    requires p < |log|
  {
    log[p].Write? && forall q: nat | q < p && SameClient(log, q, p) :: log[q].msgId != log[p].msgId
  }

  /** A write takes effect exactly when its number is larger than all its client had in the log before. */
  lemma EffectiveIsNewest(log: seq<Command>, p: nat)
    requires p < |log|
    ensures Effective(log, p) <==>
              log[p].Write? && forall q: nat | q < p && SameClient(log, q, p) :: log[q].msgId < log[p].msgId
  {
    var before, s := log[..p], State(log[..p]);
    FilterIsLargest(before);
    forall q: nat | q < p ensures before[q] == log[q] {}
    if log[p].Write? && log[p].clientId in s.ids {
      assert LoggedAs(before, log[p].clientId, s.ids[log[p].clientId]);
      var q: nat :| q < p && before[q].Write? && before[q].clientId == log[p].clientId
        && before[q].msgId == s.ids[log[p].clientId];
      assert SameClient(log, q, p);
    }
  }

  /** No write takes effect twice, whatever the log. */
  lemma AtMostOnce(log: seq<Command>, p: nat, q: nat)
    requires p < q < |log| && Effective(log, p) && Effective(log, q) && log[p].clientId == log[q].clientId
    ensures log[p].msgId < log[q].msgId
  {
    EffectiveIsNewest(log, q);
    assert SameClient(log, p, q);
  }

  /** The first times that the log shows a client's writes have rising numbers. */
  ghost predicate Numbered(log: seq<Command>) {
    forall p: nat, q: nat | p < q < |log| && SameClient(log, p, q) && FirstTime(log, p) && FirstTime(log, q) ::
      log[p].msgId < log[q].msgId
  }

  lemma {:induction false} FirstCopy(log: seq<Command>, q: nat) returns (p: nat)
    requires q < |log| && log[q].Write?
    ensures p <= q && SameClient(log, p, q) && log[p].msgId == log[q].msgId && FirstTime(log, p)
    decreases q
  {
    if FirstTime(log, q) {
      p := q;
    } else {
      var r: nat :| r < q && SameClient(log, r, q) && log[r].msgId == log[q].msgId;
      p := FirstCopy(log, r);
    }
  }

  lemma NumberedFirstIsNewest(log: seq<Command>, p: nat)
    requires p < |log| && Numbered(log) && FirstTime(log, p)
    ensures Effective(log, p)
  {
    forall q: nat | q < p && SameClient(log, q, p) ensures log[q].msgId < log[p].msgId {
      var r := FirstCopy(log, q);
      assert SameClient(log, r, p);
    }
    EffectiveIsNewest(log, p);
  }

  lemma EffectiveIsFirst(log: seq<Command>, p: nat)
    requires p < |log| && Effective(log, p)
    ensures FirstTime(log, p)
  {
    EffectiveIsNewest(log, p);
  }

  ghost predicate ExactlyOnce(log: seq<Command>) {
    forall p: nat | p < |log| :: Effective(log, p) <==> FirstTime(log, p)
  }

  /** Every write takes effect exactly once, at its first appearance, if and only if the numbers rise. */
  lemma ExactlyOnceIff(log: seq<Command>)
    ensures ExactlyOnce(log) <==> Numbered(log)
  {
    forall p: nat | p < |log| && Effective(log, p) ensures FirstTime(log, p) { EffectiveIsFirst(log, p); }
    if Numbered(log) {
      forall p: nat | p < |log| && FirstTime(log, p) ensures Effective(log, p) { NumberedFirstIsNewest(log, p); }
    }
    if ExactlyOnce(log) {
      forall p: nat, q: nat | p < q < |log| && SameClient(log, p, q) && FirstTime(log, p) && FirstTime(log, q)
        ensures log[p].msgId < log[q].msgId
      {
        AtMostOnce(log, p, q);
      }
    }
  }

  // ---------------------------------------------------------------- the values

  /** The writes in order, with no filter. */
  function Plain(storage: map<string, string>, writes: seq<Command>): map<string, string>
    requires forall c | c in writes :: c.Write?
    decreases |writes|
  {
    if writes == [] then storage else WriteTo(Plain(storage, writes[..|writes| - 1]), writes[|writes| - 1])
  }

  /** The log without gets and without the repetitions of a write. */
  ghost function Deduplicated(log: seq<Command>): (r: seq<Command>)
    ensures forall c | c in r :: c.Write?
    decreases |log|
  {
    if log == [] then [] else
      Deduplicated(log[..|log| - 1]) + (if FirstTime(log, |log| - 1) then [log[|log| - 1]] else [])
  }

  lemma NumberedFront(log: seq<Command>)
    requires log != [] && Numbered(log)
    ensures Numbered(log[..|log| - 1])
  {
    var front := log[..|log| - 1];
    forall p: nat, q: nat | p < q < |front| && SameClient(front, p, q) && FirstTime(front, p) && FirstTime(front, q)
      ensures front[p].msgId < front[q].msgId
    {
      SameFirstTime(log, p);
      SameFirstTime(log, q);
      assert SameClient(log, p, q);
    }
  }

  lemma SameFirstTime(log: seq<Command>, p: nat)
    requires p < |log| - 1
    ensures FirstTime(log, p) <==> FirstTime(log[..|log| - 1], p)
  {
    var front := log[..|log| - 1];
    forall q: nat | q < p ensures SameClient(log, q, p) <==> SameClient(front, q, p) {}
  }

  lemma PlainOneMore(storage: map<string, string>, writes: seq<Command>, c: Command)
    requires c.Write? && forall d | d in writes :: d.Write?
    ensures forall d | d in writes + [c] :: d.Write?
    ensures Plain(storage, writes + [c]) == WriteTo(Plain(storage, writes), c)
  {
    assert (writes + [c])[..|writes|] == writes;
  }

  /** With rising numbers the values are those of the log without repetitions. */
  lemma {:induction false} StorageIsPlain(log: seq<Command>)
    requires Numbered(log)
    ensures State(log).storage == Plain(map[], Deduplicated(log))
    decreases |log|
  {
    if log != [] {
      var n := |log| - 1;
      NumberedFront(log);
      StorageIsPlain(log[..n]);
      ExactlyOnceIff(log);
      assert Effective(log, n) <==> FirstTime(log, n);
      var r := Deduplicated(log[..n]);
      if FirstTime(log, n) {
        PlainOneMore(map[], r, log[n]);
        assert Deduplicated(log) == r + [log[n]];
      } else {
        assert Deduplicated(log) == r;
      }
    }
  }

  /** A write that the log shows for the first time after a later one of its client is lost: no copy of it ever takes
      effect, wherever it stands. */
  lemma LateIsLost(log: seq<Command>, p: nat, q: nat, r: nat)
    requires p < q < |log| && SameClient(log, p, q) && log[q].msgId < log[p].msgId && FirstTime(log, q)
    requires r < |log| && SameClient(log, q, r) && log[r].msgId == log[q].msgId
    ensures !Effective(log, r)
  {
    EffectiveIsNewest(log, r);
    assert r < q ==> SameClient(log, r, q);
    assert SameClient(log, p, r);
  }

  /** So it is here. */
  lemma LateExample(key: string, value: string, other: string, clientId: int)
    ensures var log := [Write("Put", key, other, clientId, 2), Write("Append", key, value, clientId, 1)];
      FirstTime(log, 1) && !Effective(log, 1) && State(log).storage == map[key := other]
  {
    var log := [Write("Put", key, other, clientId, 2), Write("Append", key, value, clientId, 1)];
    assert SameClient(log, 0, 1);
    EffectiveIsNewest(log, 1);
    assert log[..1] == [] + [log[0]] && log == [log[0]] + [log[1]];
    FoldOneMore(EMPTY, [], log[0]);
    FoldOneMore(EMPTY, [log[0]], log[1]);
  }
}

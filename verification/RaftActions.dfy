/** The invariant is kept by each elementary action: those below are what the handlers are made of. */
module RaftActions {
  import opened RaftState
  import opened RaftCluster
  import opened RaftHistory
  import opened RaftEvolve

  // ---------------------------------------------------------------- actions that leave the history alone

  /** Raising terms while logs and history stay keeps the three safety clauses. */
  lemma SafetyStays(c: Cluster, h: History, c': Cluster)
    requires RecordsOk(c, h) && ReignsSafe(c, h) && LogsSafe(c, h) && VotesSafe(c, h)
    requires |c'.peers| == |c.peers|
    requires forall s | 0 <= s < |c.peers| ::
               c.peers[s].currentTerm <= c'.peers[s].currentTerm && c'.peers[s].log == c.peers[s].log
    ensures ReignsSafe(c', h) && LogsSafe(c', h) && VotesSafe(c', h)
  {
    forall t: nat, u: nat, i: nat ensures ReignSafe(c', h, t, u, i) {
      assert ReignSafe(c, h, t, u, i);
      if Own(h, t, i) && u in h.reigns && t < u {
        CarriesOrDeadStays(c, h, c', h, h.reigns[u].log, h.reigns[u].log, t, i);
      }
    }
    forall s: nat, t: nat, i: nat ensures LogSafe(c', h, s, t, i) {
      assert LogSafe(c, h, s, t, i);
      if s < |c.peers| && Own(h, t, i) && Acked(h, s, t, i) {
        CarriesOrDeadStays(c, h, c', h, c.peers[s].log, c.peers[s].log, t, i);
      }
    }
    VotesStay(c, h, c', h);
  }

  /** Old votes stay safe as long as no voter confirms anything more in a term before its vote. */
  lemma VotesStay(c: Cluster, h: History, c': Cluster, h': History)
    requires VotesSafe(c, h) && RecordsOk(c, h) && Evolves(c, h, c', h')
    requires h'.votes == h.votes && h'.ballots == h.ballots
    ensures VotesSafe(c', h')
  {
    forall v: nat, u: nat, t: nat, i: nat ensures VoteSafe(c', h', v, u, t, i) {
      if (v, u) in h'.votes && (h'.votes[(v, u)], u) in h'.ballots && t < u && Own(h', t, i) && Acked(h', v, t, i) {
        OldVoteStays(c, h, c', h', v, u, t, i);
      }
    }
  }

  lemma OldVoteStays(c: Cluster, h: History, c': Cluster, h': History, v: nat, u: nat, t: nat, i: nat)
    requires VotesSafe(c, h) && RecordsOk(c, h) && Evolves(c, h, c', h')
    requires (v, u) in h.votes && t < u && Own(h', t, i) && Acked(h', v, t, i)
    ensures VoteSafe(c', h', v, u, t, i)
  {
    assert VoteOk(c, h, v, u);
    assert AckOk(c, h, v, t);
    assert Own(h, t, i) && Acked(h, v, t, i);
    assert VoteSafe(c, h, v, u, t, i);
    var ballot := h.ballots[(h.votes[(v, u)], u)];
    CarriesOrDeadStays(c, h, c', h', ballot, ballot, t, i);
  }

  ghost predicate TermsRise(c: Cluster, c': Cluster) {
    |c'.peers| == |c.peers| && forall s | 0 <= s < |c.peers| :: c.peers[s].currentTerm <= c'.peers[s].currentTerm
  }

  /** Whoever stays in its term keeps its vote. */
  ghost predicate VotesStand(c: Cluster, c': Cluster)
    requires TermsRise(c, c')
  {
    forall s | 0 <= s < |c.peers| && c.peers[s].currentTerm == c'.peers[s].currentTerm ::
      c'.peers[s].votedFor == c.peers[s].votedFor
  }

  lemma ReignsKept(c: Cluster, h: History, c': Cluster, h': History)
    requires ReignsOk(c, h) && TermsRise(c, c') && Grows(h, h') && h'.reigns == h.reigns
    ensures ReignsOk(c', h')
  {
    forall t | t in h'.reigns ensures ReignOk(c', h', t) {
      assert ReignOk(c, h, t);
      BackedGrows(h, h', h.reigns[t].log);
    }
  }

  lemma BallotsKept(c: Cluster, h: History, c': Cluster, h': History)
    requires BallotsOk(c, h) && TermsRise(c, c') && Grows(h, h') && h'.ballots == h.ballots
    ensures BallotsOk(c', h')
  {
    forall v, t | (v, t) in h'.ballots ensures BallotOk(c', h', v, t) {
      assert BallotOk(c, h, v, t);
      BackedGrows(h, h', h.ballots[(v, t)]);
    }
  }

  lemma VotesKept(c: Cluster, h: History, c': Cluster, h': History)
    requires VotesOk(c, h) && TermsRise(c, c') && VotesStand(c, c') && Grows(h, h') && h'.votes == h.votes
    ensures VotesOk(c', h')
  {
    forall v, t | (v, t) in h'.votes ensures VoteOk(c', h', v, t) { assert VoteOk(c, h, v, t); }
  }

  lemma AcksKept(c: Cluster, h: History, c': Cluster, h': History)
    requires AcksOk(c, h) && TermsRise(c, c') && Grows(h, h') && h'.acks == h.acks
    ensures AcksOk(c', h')
  {
    forall v, t | (v, t) in h'.acks ensures AckOk(c', h', v, t) { assert AckOk(c, h, v, t); }
  }

  lemma OneMoreAck(c: Cluster, h: History, c': Cluster, h': History, s: nat, term: nat)
    requires AcksOk(c, h) && TermsRise(c, c') && Grows(h, h')
    requires (s, term) in h'.acks && h'.acks == h.acks[(s, term) := h'.acks[(s, term)]] && AckOk(c', h', s, term)
    ensures AcksOk(c', h')
  {
    forall v, t | (v, t) in h'.acks ensures AckOk(c', h', v, t) {
      if (v, t) in h.acks { assert AckOk(c, h, v, t); }
    }
  }

  lemma RecordsStay(c: Cluster, h: History, c': Cluster)
    requires RecordsOk(c, h)
    requires |c'.peers| == |c.peers|
    requires forall s | 0 <= s < |c.peers| ::
               || c.peers[s].currentTerm < c'.peers[s].currentTerm
               || (c.peers[s].currentTerm == c'.peers[s].currentTerm && c'.peers[s].votedFor == c.peers[s].votedFor)
    ensures RecordsOk(c', h)
  {
    ReignsKept(c, h, c', h);
    BallotsKept(c, h, c', h);
    VotesKept(c, h, c', h);
    AcksKept(c, h, c', h);
  }

  lemma NobodyDisturbed(c: Cluster, h: History)
    requires PeersOk(c, h)
    ensures forall v | 0 <= v < |c.peers| :: Undisturbed(h, h, c.peers[v])
  {
    forall v | 0 <= v < |c.peers| ensures Undisturbed(h, h, c.peers[v]) {
      assert PeerOk(|c.peers|, h, v, c.peers[v]);
    }
  }

  /** A step at s that changes neither its term, its vote nor its log. */
  lemma QuietStep(c: Cluster, h: History, s: nat, p: Peer, sent: set<Message>)
    requires Inv(c, h) && s < |c.peers|
    requires p.currentTerm == c.peers[s].currentTerm && p.votedFor == c.peers[s].votedFor && p.log == c.peers[s].log
    requires PeerOk(|c.peers|, h, s, p)
    requires CallsKept(c, h, Update(c, s, p, sent))
    requires forall m | m in sent :: MessageOk(Update(c, s, p, sent), h, m)
    ensures Inv(Update(c, s, p, sent), h)
  {
    var c' := Update(c, s, p, sent);
    SafetyStays(c, h, c');
    RecordsStay(c, h, c');
    NobodyDisturbed(c, h);
    SurroundingsStay(c, h, s, p, sent, h);
  }

  lemma CallTerms(size: nat, h: History, s: nat, p: Peer)
    requires PeerOk(size, h, s, p)
    ensures forall k | 0 <= k < |p.calls| :: p.calls[k].term <= p.currentTerm
  {
    forall k | 0 <= k < |p.calls| ensures p.calls[k].term <= p.currentTerm {
      assert p.role == Leader ==> CallOk(size, h, p, p.calls[k]);
    }
  }

  lemma StepDownStep(c: Cluster, h: History, s: nat, term: nat)
    requires Inv(c, h) && s < |c.peers| && c.peers[s].currentTerm < term
    ensures Inv(Update(c, s, StepDown(c.peers[s], term), {}), h)
  {
    var p := c.peers[s];
    var p' := StepDown(p, term);
    var c' := Update(c, s, p', {});
    SafetyStays(c, h, c');
    RecordsStay(c, h, c');
    NobodyDisturbed(c, h);
    assert PeerOk(|c.peers|, h, s, p);
    PeerAfterStepDown(|c.peers|, h, s, p, term);
    SurroundingsStay(c, h, s, p', {}, h);
  }

  lemma PeerAfterStepDown(size: nat, h: History, s: nat, p: Peer, term: nat)
    requires PeerOk(size, h, s, p) && p.currentTerm < term
    ensures PeerOk(size, h, s, StepDown(p, term))
  {
    CallTerms(size, h, s, p);
    SettledGrows(size, h, h, p.log, p.log, p.commitIndex, p.currentTerm, term);
  }

  // ---------------------------------------------------------------- voting

  lemma PrefixOfCommonLog(log: seq<LogEntry>, shorter: seq<LogEntry>, longer: seq<LogEntry>)
    requires shorter <= log && longer <= log && |shorter| <= |longer|
    ensures shorter <= longer
  {
    assert longer[..|shorter|] == log[..|shorter|] == shorter;
  }

  /** A log that is at least as up to date carries whatever the other log carries, unless that is dead. */
  lemma UpToDateCarries(c: Cluster, h: History, log: seq<LogEntry>, ballot: seq<LogEntry>, t: nat, i: nat)
    requires ReignsSafe(c, h)
    requires forall w | w in h.reigns :: Shaped(h.reigns[w].log)
    requires Shaped(log) && Shaped(ballot) && Backed(h, ballot)
    requires Own(h, t, i) && Carries(h, log, t, i)
    requires var a, b := log[|log| - 1].term, ballot[|ballot| - 1].term; a < b || (a == b && |log| <= |ballot|)
    ensures CarriesOrDead(c, h, ballot, t, i)
  {
    assert BackedAt(h, ballot, |ballot| - 1);
    assert ReignSafe(c, h, t, ballot[|ballot| - 1].term, i);
    var w, prefix := ballot[|ballot| - 1].term, h.reigns[t].log[..i + 1];
    var reign := h.reigns[w].log;
    assert log[i] == prefix[i];
    assert i < |log| - 1 ==> Ordered(log, i, |log| - 1);
    assert ballot[..|ballot| - 1 + 1] == ballot;
    assert ballot <= reign;
    if w == t {
      PrefixOfCommonLog(reign, prefix, ballot);
    } else if Carries(h, reign, t, i) {
      assert reign[i] == prefix[i] && reign[|ballot| - 1] == ballot[|ballot| - 1];
      assert |ballot| - 1 < i ==> Ordered(reign, |ballot| - 1, i);
      PrefixOfCommonLog(reign, prefix, ballot);
    }
  }

  lemma GrantStep(c: Cluster, h: History, s: nat, args: VoteArgs, h': History)
    requires Inv(c, h) && s < |c.peers| && c.peers[s].currentTerm == args.term
    requires c.peers[s].votedFor == NO_VOTE || c.peers[s].votedFor == args.candidateId
    requires UpToDate(c.peers[s], args)
    requires MessageOk(c, h, VoteRequest(args.candidateId, s, args))
    requires h' == h.(votes := h.votes[(s, args.term) := args.candidateId])
    ensures Grows(h, h')
    ensures Inv(Update(c, s, GrantVote(c.peers[s], args.candidateId),
                       {VoteAnswer(s, args.candidateId, args.term, VoteReply(args.term, true))}), h')
  {
    var p, p', term, candidate := c.peers[s], GrantVote(c.peers[s], args.candidateId), args.term, args.candidateId;
    var sent := {VoteAnswer(s, candidate, term, VoteReply(term, true))};
    var c' := Update(c, s, p', sent);
    assert PeerOk(|c.peers|, h, s, p);
    assert (s, term) in h.votes ==> VoteOk(c, h, s, term);
    assert BallotOk(c, h, candidate, term);
    RecordsAfterGrant(c, h, s, candidate, h', c');
    SafetyAfterGrant(c, h, s, args, h', c');
    SurroundingsAfterGrant(c, h, s, args, h', sent);
  }

  lemma SurroundingsAfterGrant(c: Cluster, h: History, s: nat, args: VoteArgs, h': History, sent: set<Message>)
    requires PeersOk(c, h) && NetOk(c, h) && DeliveredOk(c, h) && s < |c.peers| && Grows(h, h')
    requires args.candidateId != s && c.peers[s].role != Leader
    requires h' == h.(votes := h.votes[(s, args.term) := args.candidateId])
    requires sent == {VoteAnswer(s, args.candidateId, args.term, VoteReply(args.term, true))}
    ensures var c' := Update(c, s, GrantVote(c.peers[s], args.candidateId), sent);
            PeersOk(c', h') && NetOk(c', h') && DeliveredOk(c', h')
  {
    var p, p' := c.peers[s], GrantVote(c.peers[s], args.candidateId);
    assert PeerOk(|c.peers|, h, s, p);
    NobodyDisturbed(c, h);
    VoterAfterGrant(|c.peers|, h, s, p, h', args.candidateId);
    NoLeaderNoCalls(c, h, s, p', sent);
    SurroundingsStay(c, h, s, p', sent, h');
  }

  lemma VoterAfterGrant(size: nat, h: History, s: nat, p: Peer, h': History, candidate: nat)
    requires PeerOk(size, h, s, p) && Grows(h, h') && p.role != Leader
    ensures PeerOk(size, h', s, GrantVote(p, candidate))
  {
    BackedGrows(h, h', p.log);
    SettledGrows(size, h, h', p.log, p.log, p.commitIndex, p.currentTerm, p.currentTerm);
  }

  lemma SafetyAfterGrant(c: Cluster, h: History, s: nat, args: VoteArgs, h': History, c': Cluster)
    requires RecordsOk(c, h) && ReignsSafe(c, h) && LogsSafe(c, h) && VotesSafe(c, h)
    requires s < |c.peers| && LogOk(h, c.peers[s].log, c.peers[s].currentTerm) && UpToDate(c.peers[s], args)
    requires MessageOk(c, h, VoteRequest(args.candidateId, s, args))
    requires h' == h.(votes := h.votes[(s, args.term) := args.candidateId])
    requires c'.peers == c.peers[s := GrantVote(c.peers[s], args.candidateId)]
    requires Grows(h, h')
    ensures ReignsSafe(c', h') && LogsSafe(c', h') && VotesSafe(c', h')
  {
    var log, ballot := c.peers[s].log, h.ballots[(args.candidateId, args.term)];
    assert BallotOk(c, h, args.candidateId, args.term);
    assert Placed(log, |log| - 1);
    forall w | w in h.reigns ensures Shaped(h.reigns[w].log) { assert ReignOk(c, h, w); }
    forall t: nat, u: nat, i: nat ensures ReignSafe(c', h', t, u, i) {
      assert ReignSafe(c, h, t, u, i);
      if Own(h, t, i) && u in h.reigns && t < u {
        CarriesOrDeadStays(c, h, c', h', h.reigns[u].log, h.reigns[u].log, t, i);
      }
    }
    forall v: nat, t: nat, i: nat ensures LogSafe(c', h', v, t, i) {
      assert LogSafe(c, h, v, t, i);
      if v < |c.peers| && Own(h, t, i) && Acked(h, v, t, i) {
        CarriesOrDeadStays(c, h, c', h', c.peers[v].log, c.peers[v].log, t, i);
      }
    }
    forall v: nat, u: nat, t: nat, i: nat ensures VoteSafe(c', h', v, u, t, i) {
      if (v, u) in h'.votes && t < u && Own(h', t, i) && Acked(h', v, t, i) {
        if v == s && u == args.term {
          assert LogSafe(c, h, s, t, i);
          if Carries(h, log, t, i) { UpToDateCarries(c, h, log, ballot, t, i); }
          CarriesOrDeadStays(c, h, c', h', ballot, ballot, t, i);
        } else {
          OldVoteStays(c, h, c', h', v, u, t, i);
        }
      }
    }
  }

  lemma RecordsAfterGrant(c: Cluster, h: History, s: nat, candidate: nat, h': History, c': Cluster)
    requires RecordsOk(c, h) && s < |c.peers| && c.peers[s].currentTerm > 0
    requires (candidate, c.peers[s].currentTerm) in h.ballots
    requires c'.peers == c.peers[s := GrantVote(c.peers[s], candidate)]
    requires h' == h.(votes := h.votes[(s, c.peers[s].currentTerm) := candidate])
    requires Grows(h, h')
    ensures RecordsOk(c', h')
  {
    ReignsKept(c, h, c', h');
    BallotsKept(c, h, c', h');
    AcksKept(c, h, c', h');
    forall v, t | (v, t) in h'.votes ensures VoteOk(c', h', v, t) {
      if (v, t) in h.votes { assert VoteOk(c, h, v, t); }
    }
  }

  // ---------------------------------------------------------------- standing for election

  ghost function HistoryAfterElect(h: History, p: Peer): History {
    h.(ballots := h.ballots[(p.me, p.currentTerm + 1) := p.log], votes := h.votes[(p.me, p.currentTerm + 1) := p.me])
  }

  lemma ElectStep(c: Cluster, h: History, s: nat, h': History)
    requires Inv(c, h) && s < |c.peers| && h' == HistoryAfterElect(h, c.peers[s])
    ensures Grows(h, h')
    ensures var p := StartElection(c.peers[s]); Inv(Update(c, s, p, Ballots(p)), h')
  {
    var p' := StartElection(c.peers[s]);
    var c' := Update(c, s, p', Ballots(p'));
    NewTerm(c, h, s, h');
    RecordsAfterElect(c, h, s, h', c');
    SafetyAfterElect(c, h, s, h', c');
    SurroundingsAfterElect(c, h, s, h');
  }

  /** Nothing is known yet of the term in which s stands. */
  lemma NewTerm(c: Cluster, h: History, s: nat, h': History)
    requires PeersOk(c, h) && RecordsOk(c, h) && s < |c.peers| && h' == HistoryAfterElect(h, c.peers[s])
    ensures PeerOk(|c.peers|, h, s, c.peers[s]) && Grows(h, h')
    ensures var term := c.peers[s].currentTerm + 1; term in h.reigns ==> h.reigns[term].leader != s
  {
    var term := c.peers[s].currentTerm + 1;
    assert PeerOk(|c.peers|, h, s, c.peers[s]);
    assert (s, term) in h.votes ==> VoteOk(c, h, s, term);
    assert (s, term) in h.ballots ==> BallotOk(c, h, s, term);
    assert term in h.reigns ==> ReignOk(c, h, term);
  }

  lemma SurroundingsAfterElect(c: Cluster, h: History, s: nat, h': History)
    requires PeersOk(c, h) && NetOk(c, h) && DeliveredOk(c, h) && s < |c.peers|
    requires h' == HistoryAfterElect(h, c.peers[s]) && Grows(h, h')
    requires var term := c.peers[s].currentTerm + 1; term in h.reigns ==> h.reigns[term].leader != s
    ensures var p := StartElection(c.peers[s]);
            var c' := Update(c, s, p, Ballots(p));
            PeersOk(c', h') && NetOk(c', h') && DeliveredOk(c', h')
  {
    var p, p' := c.peers[s], StartElection(c.peers[s]);
    assert PeerOk(|c.peers|, h, s, p);
    NobodyDisturbed(c, h);
    CandidateAfterElect(|c.peers|, h, s, p, h');
    BallotsMatch(c, h', s, p');
    NoLeaderNoCalls(c, h, s, p', Ballots(p'));
    SurroundingsStay(c, h, s, p', Ballots(p'), h');
  }

  lemma CandidateAfterElect(size: nat, h: History, s: nat, p: Peer, h': History)
    requires PeerOk(size, h, s, p) && h' == HistoryAfterElect(h, p) && Grows(h, h')
    requires p.currentTerm + 1 in h.reigns ==> h.reigns[p.currentTerm + 1].leader != s
    ensures PeerOk(size, h', s, StartElection(p))
  {
    BackedGrows(h, h', p.log);
    SettledGrows(size, h, h', p.log, p.log, p.commitIndex, p.currentTerm, p.currentTerm + 1);
    CallTerms(size, h, s, p);
  }

  lemma BallotsMatch(c: Cluster, h: History, s: nat, p: Peer)
    requires s < |c.peers| && p.me == s && Shaped(p.log) && p.snapshot.index == 0
    requires (s, p.currentTerm) in h.ballots && h.ballots[(s, p.currentTerm)] == p.log
    ensures forall m | m in Ballots(p) :: MessageOk(Update(c, s, p, Ballots(p)), h, m)
  {
    assert Placed(p.log, |p.log| - 1);
  }

  lemma NoLeaderNoCalls(c: Cluster, h: History, s: nat, p: Peer, sent: set<Message>)
    requires s < |c.peers| && (p.role != Leader || p.currentTerm !in h.reigns)
    ensures CallsKept(c, h, Update(c, s, p, sent))
  {
  }

  lemma RecordsAfterElect(c: Cluster, h: History, s: nat, h': History, c': Cluster)
    requires RecordsOk(c, h) && s < |c.peers| && PeerOk(|c.peers|, h, s, c.peers[s])
    requires h' == HistoryAfterElect(h, c.peers[s]) && Grows(h, h')
    requires c'.peers == c.peers[s := StartElection(c.peers[s])]
    ensures RecordsOk(c', h')
  {
    ReignsKept(c, h, c', h');
    AcksKept(c, h, c', h');
    OwnVoteAndBallot(c, h, s, h', c');
  }

  lemma OwnVoteAndBallot(c: Cluster, h: History, s: nat, h': History, c': Cluster)
    requires VotesOk(c, h) && BallotsOk(c, h) && s < |c.peers| && c.peers[s].me == s
    requires LogOk(h, c.peers[s].log, c.peers[s].currentTerm)
    requires h' == HistoryAfterElect(h, c.peers[s]) && Grows(h, h')
    requires c'.peers == c.peers[s := StartElection(c.peers[s])]
    ensures VotesOk(c', h') && BallotsOk(c', h')
  {
    forall v, t | (v, t) in h'.votes ensures VoteOk(c', h', v, t) {
      if (v, t) in h.votes { assert VoteOk(c, h, v, t); }
    }
    forall v, t | (v, t) in h'.ballots ensures BallotOk(c', h', v, t) {
      if (v, t) in h.ballots { assert BallotOk(c, h, v, t); }
      BackedGrows(h, h', h'.ballots[(v, t)]);
    }
  }

  lemma SafetyAfterElect(c: Cluster, h: History, s: nat, h': History, c': Cluster)
    requires ReignsSafe(c, h) && LogsSafe(c, h) && VotesSafe(c, h)
    requires RecordsOk(c, h) && s < |c.peers| && c.peers[s].me == s
    requires h' == HistoryAfterElect(h, c.peers[s]) && Grows(h, h')
    requires c'.peers == c.peers[s := StartElection(c.peers[s])]
    ensures ReignsSafe(c', h') && LogsSafe(c', h') && VotesSafe(c', h')
  {
    forall t: nat, u: nat, i: nat ensures ReignSafe(c', h', t, u, i) {
      assert ReignSafe(c, h, t, u, i);
      if Own(h, t, i) && u in h.reigns && t < u {
        CarriesOrDeadStays(c, h, c', h', h.reigns[u].log, h.reigns[u].log, t, i);
      }
    }
    forall v: nat, t: nat, i: nat ensures LogSafe(c', h', v, t, i) {
      assert LogSafe(c, h, v, t, i);
      if v < |c.peers| && Own(h, t, i) && Acked(h, v, t, i) {
        CarriesOrDeadStays(c, h, c', h', c.peers[v].log, c.peers[v].log, t, i);
      }
    }
    forall v: nat, u: nat, t: nat, i: nat ensures VoteSafe(c', h', v, u, t, i) {
      if (v, u) in h'.votes && t < u && Own(h', t, i) && Acked(h', v, t, i) {
        if (v, u) in h.votes {
          OldVoteStays(c, h, c', h', v, u, t, i);
        } else {
          assert LogSafe(c, h, s, t, i);
          CarriesOrDeadStays(c, h, c', h', c.peers[s].log, c.peers[s].log, t, i);
        }
      }
    }
  }

  // ---------------------------------------------------------------- taking office

  ghost function HistoryAfterWin(h: History, p: Peer): History
    requires |p.log| > 0
  {
    h.(reigns := h.reigns[p.currentTerm := Reign(p.me, p.voters + {p.me}, p.log)],
       acks := h.acks[(p.me, p.currentTerm) := |p.log| - 1])
  }

  /** A candidate backed by a majority stands in a term that has no leader yet. */
  lemma TermIsOpen(c: Cluster, h: History, p: Peer)
    requires RecordsOk(c, h) && CandidateOk(|c.peers|, h, p) && p.me < |c.peers| && p.currentTerm > 0
    requires 1 + |p.voters| >= |c.peers| / 2 + 1
    ensures Majority(|c.peers|, p.voters + {p.me})
    ensures forall v | v in p.voters + {p.me} :: (v, p.currentTerm) in h.votes && h.votes[(v, p.currentTerm)] == p.me
    ensures p.currentTerm !in h.reigns
    ensures (p.me, p.currentTerm) !in h.acks
  {
    var term, electors := p.currentTerm, p.voters + {p.me};
    assert BallotOk(c, h, p.me, term);
    assert |electors| == |p.voters| + 1;
    if term in h.reigns {
      assert ReignOk(c, h, term);
      var v := Overlap(|c.peers|, electors, h.reigns[term].electors);
      assert false;
    }
    assert (p.me, term) in h.acks ==> AckOk(c, h, p.me, term);
  }

  /** `p` is the candidate with the winning vote already counted. */
  lemma WinStep(c: Cluster, h: History, s: nat, h': History)
    requires Inv(c, h) && s < |c.peers| && c.peers[s].role == Candidate
    requires 1 + |c.peers[s].voters| >= |c.peers| / 2 + 1
    requires PeerOk(|c.peers|, h, s, c.peers[s]) && h' == HistoryAfterWin(h, c.peers[s])
    ensures Grows(h, h')
    ensures Inv(Update(c, s, BecomeLeader(c.peers[s]), {}), h')
  {
    var p, p' := c.peers[s], BecomeLeader(c.peers[s]);
    var c' := Update(c, s, p', {});
    assert BallotOk(c, h, s, p.currentTerm);
    TermIsOpen(c, h, p);
    RecordsAfterWin(c, h, s, h', c');
    SafetyAfterWin(c, h, s, h', c');
    SurroundingsAfterWin(c, h, s, h');
  }

  lemma SurroundingsAfterWin(c: Cluster, h: History, s: nat, h': History)
    requires PeersOk(c, h) && NetOk(c, h) && DeliveredOk(c, h) && s < |c.peers| && c.peers[s].role == Candidate
    requires PeerOk(|c.peers|, h, s, c.peers[s]) && h' == HistoryAfterWin(h, c.peers[s]) && Grows(h, h')
    requires c.peers[s].currentTerm > 0 && c.peers[s].currentTerm !in h.reigns
    ensures var c' := Update(c, s, BecomeLeader(c.peers[s]), {});
            PeersOk(c', h') && NetOk(c', h') && DeliveredOk(c', h')
  {
    var p' := BecomeLeader(c.peers[s]);
    OthersAfterWin(c, h, s, h');
    LeaderAfterWin(|c.peers|, h, s, c.peers[s], h');
    NoLeaderNoCalls(c, h, s, p', {});
    SurroundingsStay(c, h, s, p', {}, h');
  }

  lemma OthersAfterWin(c: Cluster, h: History, s: nat, h': History)
    requires PeersOk(c, h) && s < |c.peers| && c.peers[s].me == s && |c.peers[s].log| > 0
    requires h' == HistoryAfterWin(h, c.peers[s]) && c.peers[s].currentTerm !in h.reigns
    ensures forall v | 0 <= v < |c.peers| && v != s :: Undisturbed(h, h', c.peers[v])
  {
    forall v | 0 <= v < |c.peers| && v != s ensures Undisturbed(h, h', c.peers[v]) {
      assert PeerOk(|c.peers|, h, v, c.peers[v]);
    }
  }

  lemma LeaderAfterWin(size: nat, h: History, s: nat, p: Peer, h': History)
    requires PeerOk(size, h, s, p) && p.role == Candidate && p.currentTerm > 0
    requires h' == HistoryAfterWin(h, p) && Grows(h, h')
    ensures PeerOk(size, h', s, BecomeLeader(p))
  {
    BackedGrows(h, h', p.log);
    SettledGrows(size, h, h', p.log, p.log, p.commitIndex, p.currentTerm, p.currentTerm);
  }

  lemma RecordsAfterWin(c: Cluster, h: History, s: nat, h': History, c': Cluster)
    requires RecordsOk(c, h) && s < |c.peers| && c.peers[s].me == s
    requires LogOk(h, c.peers[s].log, c.peers[s].currentTerm)
    requires h' == HistoryAfterWin(h, c.peers[s]) && Grows(h, h')
    requires Majority(|c.peers|, c.peers[s].voters + {s}) && c.peers[s].currentTerm > 0
    requires forall v | v in c.peers[s].voters + {s} ::
               (v, c.peers[s].currentTerm) in h.votes && h.votes[(v, c.peers[s].currentTerm)] == s
    requires c'.peers == c.peers[s := BecomeLeader(c.peers[s])]
    ensures RecordsOk(c', h')
  {
    ReignsAfterWin(c, h, s, h', c');
    VotesKept(c, h, c', h');
    BallotsKept(c, h, c', h');
    OneMoreAck(c, h, c', h', s, c.peers[s].currentTerm);
  }

  lemma ReignsAfterWin(c: Cluster, h: History, s: nat, h': History, c': Cluster)
    requires ReignsOk(c, h) && s < |c.peers| && c.peers[s].me == s
    requires LogOk(h, c.peers[s].log, c.peers[s].currentTerm)
    requires h' == HistoryAfterWin(h, c.peers[s]) && Grows(h, h')
    requires Majority(|c.peers|, c.peers[s].voters + {s}) && c.peers[s].currentTerm > 0
    requires forall v | v in c.peers[s].voters + {s} ::
               (v, c.peers[s].currentTerm) in h.votes && h.votes[(v, c.peers[s].currentTerm)] == s
    requires c'.peers == c.peers[s := BecomeLeader(c.peers[s])]
    ensures ReignsOk(c', h')
  {
    forall t | t in h'.reigns ensures ReignOk(c', h', t) {
      if t != c.peers[s].currentTerm { assert ReignOk(c, h, t); }
      BackedGrows(h, h', h'.reigns[t].log);
    }
  }

  /** What none of the new leader's electors has confirmed in an earlier term is dead; the rest it carries. */
  lemma NewReignCarries(c: Cluster, h: History, p: Peer, t: nat, i: nat)
    requires RecordsOk(c, h) && VotesSafe(c, h) && CandidateOk(|c.peers|, h, p)
    requires Majority(|c.peers|, p.voters + {p.me})
    requires forall v | v in p.voters + {p.me} :: (v, p.currentTerm) in h.votes && h.votes[(v, p.currentTerm)] == p.me
    requires t < p.currentTerm && Own(h, t, i)
    ensures CarriesOrDead(c, h, p.log, t, i)
  {
    var electors := p.voters + {p.me};
    if v :| v in electors && Acked(h, v, t, i) {
      assert VoteSafe(c, h, v, p.currentTerm, t, i);
    } else {
      forall v | v in electors ensures c.peers[v].currentTerm > t && !Acked(h, v, t, i) {
        assert VoteOk(c, h, v, p.currentTerm);
      }
      assert Passed(c, h, electors, t, i);
    }
  }

  /** The new reign has no entry of its own yet. */
  lemma NothingOwnYet(h: History, p: Peer, h': History)
    requires |p.log| > 0 && h' == HistoryAfterWin(h, p) && TermsUpTo(p.log, p.currentTerm - 1)
    ensures forall t: nat, i: nat | Own(h', t, i) :: Own(h, t, i) && t != p.currentTerm
  {
  }

  lemma ReignsSafeAfterWin(c: Cluster, h: History, p: Peer, h': History, c': Cluster)
    requires ReignsSafe(c, h) && |p.log| > 0 && TermsUpTo(p.log, p.currentTerm - 1)
    requires h' == HistoryAfterWin(h, p) && p.currentTerm !in h.reigns
    requires forall t: nat, i: nat | Own(h, t, i) && t < p.currentTerm :: CarriesOrDead(c, h, p.log, t, i)
    requires Evolves(c, h, c', h')
    ensures ReignsSafe(c', h')
  {
    NothingOwnYet(h, p, h');
    forall t: nat, u: nat, i: nat ensures ReignSafe(c', h', t, u, i) {
      if Own(h', t, i) && u in h'.reigns && t < u {
        assert Own(h, t, i) && ReignSafe(c, h, t, u, i);
        CarriesOrDeadStays(c, h, c', h', h'.reigns[u].log, h'.reigns[u].log, t, i);
      }
    }
  }

  lemma LogsSafeAfterWin(c: Cluster, h: History, p: Peer, h': History, c': Cluster)
    requires LogsSafe(c, h) && |p.log| > 0 && TermsUpTo(p.log, p.currentTerm - 1)
    requires h' == HistoryAfterWin(h, p) && p.currentTerm !in h.reigns
    requires Evolves(c, h, c', h')
    requires forall s | 0 <= s < |c.peers| :: c'.peers[s].log == c.peers[s].log
    ensures LogsSafe(c', h')
  {
    NothingOwnYet(h, p, h');
    forall s: nat, t: nat, i: nat ensures LogSafe(c', h', s, t, i) {
      if s < |c.peers| && Own(h', t, i) && Acked(h', s, t, i) {
        assert Own(h, t, i) && LogSafe(c, h, s, t, i);
        CarriesOrDeadStays(c, h, c', h', c.peers[s].log, c.peers[s].log, t, i);
      }
    }
  }

  lemma SafetyAfterWin(c: Cluster, h: History, s: nat, h': History, c': Cluster)
    requires ReignsSafe(c, h) && LogsSafe(c, h) && VotesSafe(c, h) && RecordsOk(c, h)
    requires s < |c.peers| && |c.peers[s].log| > 0 && c.peers[s].me == s && CandidateOk(|c.peers|, h, c.peers[s])
    requires h' == HistoryAfterWin(h, c.peers[s]) && Grows(h, h')
    requires Majority(|c.peers|, c.peers[s].voters + {s}) && c.peers[s].currentTerm !in h.reigns
    requires forall v | v in c.peers[s].voters + {s} ::
               (v, c.peers[s].currentTerm) in h.votes && h.votes[(v, c.peers[s].currentTerm)] == s
    requires c'.peers == c.peers[s := BecomeLeader(c.peers[s])]
    ensures ReignsSafe(c', h') && LogsSafe(c', h') && VotesSafe(c', h')
  {
    var p := c.peers[s];
    assert BallotOk(c, h, s, p.currentTerm);
    forall t: nat, i: nat | Own(h, t, i) && t < p.currentTerm
      ensures CarriesOrDead(c, h, p.log, t, i)
    {
      NewReignCarries(c, h, p, t, i);
    }
    ReignsSafeAfterWin(c, h, p, h', c');
    LogsSafeAfterWin(c, h, p, h', c');
    VotesStay(c, h, c', h');
  }
}

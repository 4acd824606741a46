/** The out-of-memory vote of the page-out daemons: vm_pageout_mightbe_oom, all daemons interleaved. */
module Oom {
  import opened Chains

  // Between its accesses to the shared counter a daemon is scanning, about to withdraw or to cast its
  // vote, selecting a victim, or about to recall its vote after that.
  datatype Pc = Scanning | Withdrawing | Casting | Killing | Recalling

  // vmd_oom and vmd_oom_seq of a domain and where its daemon is; for the statements below also the
  // shortage each of its scans started from and left, and how many there were when it last voted.
  datatype Domain = Domain(oom: bool, seqn: int, pc: Pc, scans: seq<(int, int)>, votedAt: nat)

  // votes is vm_pageout_oom_vote.
  datatype State = State(doms: seq<Domain>, votes: int)

  datatype Event =
    | Scan(d: nat, starting: int, shortage: int)   // up to the first access to the counter
    | Count(d: nat)                                // atomic_subtract or atomic_fetchadd
    | Killed(d: nat)                               // vm_pageout_oom returns

  // Whether vm_pageout_mightbe_oom counts a scan: the negation of its first test.
  function Fails(starting: int, shortage: int): bool {
    !(starting <= 0 || starting != shortage)
  }

  function Scanned(d: Domain, oomSeq: int, starting: int, shortage: int): Domain {
    var fails := Fails(starting, shortage);
    var seqn := if fails then d.seqn + 1 else 0;
    var d' := d.(seqn := seqn, scans := d.scans + [(starting, shortage)]);
    if seqn < oomSeq then
      if d.oom then d'.(oom := false, pc := Withdrawing) else d'
    else if d.oom then d'.(seqn := 0)
    else d'.(seqn := 0, oom := true, pc := Casting, votedAt := |d'.scans|)
  }

  // Whether the domain's vote is in the counter.
  predicate Outstanding(d: Domain) {
    match d.pc
    case Scanning => d.oom
    case Casting => false
    case _ => true
  }

  predicate Steps(oomSeq: int, s: State, e: Event, s': State) {
    && e.d < |s.doms|
    && var d := s.doms[e.d];
       match e
       case Scan(i, starting, shortage) =>
         d.pc == Scanning && s' == s.(doms := s.doms[i := Scanned(d, oomSeq, starting, shortage)])
       case Count(i) =>
         match d.pc {
           case Withdrawing => s' == State(s.doms[i := d.(pc := Scanning)], s.votes - 1)
           case Recalling => s' == State(s.doms[i := d.(pc := Scanning)], s.votes - 1)
           case Casting =>
             s' == State(s.doms[i := d.(pc := if s.votes == |s.doms| - 1 then Killing else Scanning)], s.votes + 1)
           case _ => false
         }
       case Killed(i) => d.pc == Killing && s' == s.(doms := s.doms[i := d.(oom := false, pc := Recalling)])
  }

  ghost function Runs(oomSeq: int): (State, Event, State) -> bool {
    (s, e, s') => Steps(oomSeq, s, e, s')
  }

  predicate Initial(s: State) {
    s.votes == 0 && forall i :: 0 <= i < |s.doms| ==> s.doms[i] == Domain(false, 0, Scanning, [], 0)
  }

  // A scan with a positive shortage and no progress.
  predicate InVain(scan: (int, int)) {
    scan.0 > 0 && scan.1 == scan.0
  }

  // The last n of the first k scans were all in vain.
  ghost predicate Streak(scans: seq<(int, int)>, k: int, n: int) {
    0 <= k - n && k <= |scans| && forall i :: k - n <= i < k ==> scans[i].0 > 0 && scans[i].1 == scans[i].0
  }

  predicate FlagOk(d: Domain) {
    && (d.pc == Casting || d.pc == Killing ==> d.oom)
    && (d.pc == Withdrawing || d.pc == Recalling ==> !d.oom)
  }

  // Whether the latest scan failed.
  predicate Last(d: Domain) {
    d.scans != [] && InVain(d.scans[|d.scans| - 1])
  }

  ghost predicate StreakOk(d: Domain, oomSeq: int) {
    && FlagOk(d)
    && 0 <= d.seqn && Streak(d.scans, |d.scans|, d.seqn)
    && (d.oom ==> d.seqn == 0)
    // A vote was cast after oomSeq failing scans in a row.  While it stands they go on to the latest scan,
    // and when it is being withdrawn too, unless that scan did not fail.
    && (d.oom || d.pc == Recalling ==> Streak(d.scans, |d.scans|, oomSeq))
    && (d.pc == Withdrawing ==> d.scans != [] && (Last(d) ==> Streak(d.scans, |d.scans|, oomSeq)))
    // With a longer streak than one asked for, no scan has ended since the vote but the one that withdraws it.
    && (Outstanding(d) || d.pc == Casting ==> Streak(d.scans, d.votedAt, oomSeq))
    && (oomSeq >= 2 && (d.oom || d.pc == Recalling) ==> d.votedAt == |d.scans|)
    && (oomSeq >= 2 && d.pc == Withdrawing ==> d.votedAt == |d.scans| - 1)
  }

  function Votes(doms: seq<Domain>): nat {
    if doms == [] then 0 else (if Outstanding(doms[0]) then 1 else 0) + Votes(doms[1..])
  }

  // The counter is the number of outstanding votes.
  ghost predicate Inv(s: State) {
    s.votes == Votes(s.doms) && forall i :: 0 <= i < |s.doms| ==> FlagOk(s.doms[i])
  }

  ghost predicate Streaks(s: State, oomSeq: int) {
    forall i :: 0 <= i < |s.doms| ==> StreakOk(s.doms[i], oomSeq)
  }

  lemma {:induction false} VotesUpdate(doms: seq<Domain>, i: nat, d: Domain)
    requires i < |doms|
    ensures Votes(doms[i := d]) ==
      Votes(doms) - (if Outstanding(doms[i]) then 1 else 0) + (if Outstanding(d) then 1 else 0)
  {
    if i == 0 {
      assert doms[i := d][1..] == doms[1..];
    } else {
      VotesUpdate(doms[1..], i - 1, d);
      assert doms[i := d][1..] == doms[1..][i - 1 := d];
    }
  }

  lemma {:induction false} VotesBounded(doms: seq<Domain>)
    ensures Votes(doms) <= |doms|
    ensures Votes(doms) == |doms| ==> forall i :: 0 <= i < |doms| ==> Outstanding(doms[i])
  {
    if doms != [] {
      VotesBounded(doms[1..]);
      assert forall i :: 0 < i < |doms| ==> doms[i] == doms[1..][i - 1];
    }
  }

  lemma StepKeeps(oomSeq: int, s: State, e: Event, s': State)
    requires Inv(s) && Steps(oomSeq, s, e, s')
    ensures Inv(s')
  {
    VotesUpdate(s.doms, e.d, s'.doms[e.d]);
  }

  lemma StepKeepsStreaks(oomSeq: int, s: State, e: Event, s': State)
    requires oomSeq >= 1 && Streaks(s, oomSeq) && Steps(oomSeq, s, e, s')
    ensures Streaks(s', oomSeq)
  {
    assert StreakOk(s'.doms[e.d], oomSeq);
  }

  lemma {:induction false} NoVotes(doms: seq<Domain>)
    requires forall i :: 0 <= i < |doms| ==> !Outstanding(doms[i])
    ensures Votes(doms) == 0
  {
    if doms != [] {
      NoVotes(doms[1..]);
    }
  }

  // Over all interleavings the counter is the number of outstanding votes, between 0 and the number of
  // domains.
  lemma CounterIsVotes(oomSeq: int, s0: State, es: seq<Event>, s: State)
    requires Initial(s0) && Chain(Runs(oomSeq), s0, es, s)
    ensures Inv(s) && s.votes == Votes(s.doms) && 0 <= s.votes <= |s.doms|
  {
    NoVotes(s0.doms);
    forall a, e, a' | Inv(a) && Runs(oomSeq)(a, e, a') ensures Inv(a') {
      StepKeeps(oomSeq, a, e, a');
    }
    Always(Runs(oomSeq), Inv, s0, es, s);
    VotesBounded(s.doms);
  }

  lemma StreaksHold(oomSeq: int, s0: State, es: seq<Event>, s: State)
    requires oomSeq >= 1 && Initial(s0) && Chain(Runs(oomSeq), s0, es, s)
    ensures Streaks(s, oomSeq)
  {
    forall a, e, a' | Streaks(a, oomSeq) && Runs(oomSeq)(a, e, a') ensures Streaks(a', oomSeq) {
      StepKeepsStreaks(oomSeq, a, e, a');
    }
    Always(Runs(oomSeq), a => Streaks(a, oomSeq), s0, es, s);
  }

  ghost predicate StartsKilling(s: State, s': State, d: nat) {
    d < |s.doms| && |s'.doms| == |s.doms| && s.doms[d].pc != Killing && s'.doms[d].pc == Killing
  }

  // The killer starts only by a vote that makes the votes of all domains outstanding.
  lemma KillNeedsAllVotes(oomSeq: int, s0: State, es: seq<Event>, s: State, e: Event, s': State, d: nat)
    requires Initial(s0) && Chain(Runs(oomSeq), s0, es, s) && Steps(oomSeq, s, e, s') && StartsKilling(s, s', d)
    ensures e == Count(d) && s.votes == |s.doms| - 1 && s'.votes == |s'.doms|
    ensures forall i :: 0 <= i < |s'.doms| ==> Outstanding(s'.doms[i])
  {
    CounterIsVotes(oomSeq, s0, es, s);
    StepKeeps(oomSeq, s, e, s');
    VotesBounded(s'.doms);
  }

  // A domain whose vote is counted but which has met its target since.
  predicate Recovered(d: Domain) {
    d.pc == Withdrawing && d.scans != [] && !Last(d)
  }

  // Each of them was cast after oomSeq failing scans in a row.  Those are the domain's latest scans, unless
  // it has recovered, and then they are not.
  lemma KillNeedsQuorum(oomSeq: int, s0: State, es: seq<Event>, s: State, e: Event, s': State, d: nat)
    requires oomSeq >= 1
    requires Initial(s0) && Chain(Runs(oomSeq), s0, es, s) && Steps(oomSeq, s, e, s') && StartsKilling(s, s', d)
    ensures forall i :: 0 <= i < |s'.doms| ==> Streak(s'.doms[i].scans, s'.doms[i].votedAt, oomSeq)
    ensures forall i :: 0 <= i < |s'.doms| ==>
      (Streak(s'.doms[i].scans, |s'.doms[i].scans|, oomSeq) <==> !Recovered(s'.doms[i]))
  {
    KillNeedsAllVotes(oomSeq, s0, es, s, e, s', d);
    StreaksHold(oomSeq, s0, es, s);
    StepKeepsStreaks(oomSeq, s, e, s');
    forall i | 0 <= i < |s'.doms|
      ensures Streak(s'.doms[i].scans, |s'.doms[i].scans|, oomSeq) <==> !Recovered(s'.doms[i])
    {
      CountedStreak(s'.doms[i], oomSeq);
    }
  }

  lemma CountedStreak(d: Domain, oomSeq: int)
    requires oomSeq >= 1 && StreakOk(d, oomSeq) && Outstanding(d)
    ensures Streak(d.scans, |d.scans|, oomSeq) <==> !Recovered(d)
  {
  }

  // A vote lasts for one scan: unless a single failing scan is enough to vote, the next scan of the domain
  // withdraws it, failed or not.
  lemma NextScanWithdraws(oomSeq: int, s: State, d: nat, starting: int, shortage: int)
    requires oomSeq >= 1 && Streaks(s, oomSeq) && d < |s.doms| && s.doms[d].pc == Scanning && s.doms[d].oom
    ensures var d' := Scanned(s.doms[d], oomSeq, starting, shortage);
      d'.pc == Withdrawing <==> oomSeq >= 2 || !(starting > 0 && shortage == starting)
  {
    assert StreakOk(s.doms[d], oomSeq);
  }

  // At the start of the killer a domain may already have recovered: its daemon has cleared its flag but
  // has yet to take its vote off the counter.
  lemma RecoveredDomainCounts() returns (s0: State, es: seq<Event>, s: State, e: Event, s': State)
    ensures Initial(s0) && Chain(Runs(2), s0, es, s) && Steps(2, s, e, s') && StartsKilling(s, s', 1)
    ensures |s'.doms| == 2 && Recovered(s'.doms[0]) && s'.doms[0].scans == [(1, 1), (1, 1), (1, 0)]
  {
    s0 := State([IDLE, IDLE], 0);
    var mid := State([VOTED, IDLE], 1);
    s, e := State([RECOVERED, CASTING], 1), Count(1);
    s' := State([RECOVERED, CASTING.(pc := Killing)], 2);
    FirstVotes();
    FirstRecovers();
    es := [Scan(0, 1, 1)] + ([Scan(0, 1, 1)] + ([Count(0)] + []));
    var fs := [Scan(1, 1, 1)] + ([Scan(1, 1, 1)] + ([Scan(0, 1, 0)] + []));
    Append(Runs(2), s0, es, mid, fs, s);
    es := es + fs;
  }

  const IDLE := Domain(false, 0, Scanning, [], 0)
  const ONCE := Domain(false, 1, Scanning, [(1, 1)], 0)
  const CASTING := Domain(true, 0, Casting, [(1, 1), (1, 1)], 2)
  const VOTED := Domain(true, 0, Scanning, [(1, 1), (1, 1)], 2)
  const RECOVERED := Domain(false, 0, Withdrawing, [(1, 1), (1, 1), (1, 0)], 2)

  lemma FirstVotes()
    ensures Chain(Runs(2), State([IDLE, IDLE], 0), [Scan(0, 1, 1)] + ([Scan(0, 1, 1)] + ([Count(0)] + [])),
                  State([VOTED, IDLE], 1))
  {
    var s0, s1 := State([IDLE, IDLE], 0), State([ONCE, IDLE], 0);
    var s2, s3 := State([CASTING, IDLE], 0), State([VOTED, IDLE], 1);
    assert Scanned(IDLE, 2, 1, 1) == ONCE && Scanned(ONCE, 2, 1, 1) == CASTING;
    Prepend(Runs(2), s2, Count(0), s3, [], s3);
    Prepend(Runs(2), s1, Scan(0, 1, 1), s2, [Count(0)] + [], s3);
    Prepend(Runs(2), s0, Scan(0, 1, 1), s1, [Scan(0, 1, 1)] + ([Count(0)] + []), s3);
  }

  lemma FirstRecovers()
    ensures Chain(Runs(2), State([VOTED, IDLE], 1), [Scan(1, 1, 1)] + ([Scan(1, 1, 1)] + ([Scan(0, 1, 0)] + [])),
                  State([RECOVERED, CASTING], 1))
  {
    var s0, s1 := State([VOTED, IDLE], 1), State([VOTED, ONCE], 1);
    var s2, s3 := State([VOTED, CASTING], 1), State([RECOVERED, CASTING], 1);
    assert Scanned(IDLE, 2, 1, 1) == ONCE && Scanned(ONCE, 2, 1, 1) == CASTING && Scanned(VOTED, 2, 1, 0) == RECOVERED;
    Prepend(Runs(2), s2, Scan(0, 1, 0), s3, [], s3);
    Prepend(Runs(2), s1, Scan(1, 1, 1), s2, [Scan(0, 1, 0)] + [], s3);
    Prepend(Runs(2), s0, Scan(1, 1, 1), s1, [Scan(1, 1, 1)] + ([Scan(0, 1, 0)] + []), s3);
  }

  // A domain after more scans, none of which casts a vote but the last.
  function AllScanned(d: Domain, oomSeq: int, scans: seq<(int, int)>): Domain
    decreases |scans|
  {
    if scans == [] then d
    else
      var last := scans[|scans| - 1];
      Scanned(AllScanned(d, oomSeq, scans[..|scans| - 1]), oomSeq, last.0, last.1)
  }

  // A vote is cast when it is due: by the oomSeq-th of any scans in vain in a row, and not before.
  lemma {:induction false} VotesWhenDue(d: Domain, oomSeq: int, scans: seq<(int, int)>)
    requires oomSeq >= 1 && |scans| <= oomSeq && d.pc == Scanning && !d.oom && d.seqn == 0
    requires forall i :: 0 <= i < |scans| ==> scans[i].0 > 0 && scans[i].1 == scans[i].0
    ensures var d' := AllScanned(d, oomSeq, scans);
      d'.pc == (if |scans| < oomSeq then Scanning else Casting) && (|scans| < oomSeq ==> d'.seqn == |scans| && !d'.oom)
    decreases |scans|
  {
    if scans != [] {
      VotesWhenDue(d, oomSeq, scans[..|scans| - 1]);
    }
  }

  // A scan that did not fail makes its daemon vote exactly when vm_pageout_oom_seq is 0 or less and no vote
  // stands.
  lemma VoteWithoutShortage(d: Domain, oomSeq: int, starting: int, shortage: int)
    requires d.pc == Scanning && !(starting > 0 && shortage == starting)
    ensures Scanned(d, oomSeq, starting, shortage).pc == Casting <==> oomSeq <= 0 && !d.oom
  {
  }

  lemma ContentVoter()
    ensures Scanned(IDLE, 0, 1, 0).pc == Casting && Scanned(IDLE, 0, 1, 0).scans == [(1, 0)]
  {
  }

  // Where more than one failing scan is asked for, domains that take turns never make a quorum: scans of
  // all of them can fail for ever without the killer starting.

  ghost function QuietRuns(oomSeq: int): (State, Event, State) -> bool {
    (s, e, s') => Steps(oomSeq, s, e, s') && forall i :: 0 <= i < |s'.doms| ==> s'.doms[i].pc != Killing
  }

  predicate AllFailed(d: Domain) {
    forall i :: 0 <= i < |d.scans| ==> InVain(d.scans[i])
  }

  predicate Resting(d: Domain, oomSeq: int) {
    d.pc == Scanning && !d.oom && 0 <= d.seqn < oomSeq && AllFailed(d)
  }

  predicate AllRest(s: State, oomSeq: int) {
    s.votes == 0 && forall i :: 0 <= i < |s.doms| ==> Resting(s.doms[i], oomSeq)
  }

  // s' differs from s in domain d only, which has had n more scans or more.
  predicate Advanced(s: State, s': State, d: nat, n: nat) {
    && |s'.doms| == |s.doms| && d < |s.doms|
    && |s'.doms[d].scans| >= |s.doms[d].scans| + n
    && forall i :: 0 <= i < |s.doms| && i != d ==> s'.doms[i] == s.doms[i]
  }

  lemma ScanAlone(oomSeq: int, s: State, d: nat) returns (es: seq<Event>, s': State)
    requires oomSeq >= 2 && AllRest(s, oomSeq) && d < |s.doms|
    requires s.doms[d].seqn + 1 < oomSeq
    ensures Chain(QuietRuns(oomSeq), s, es, s') && AllRest(s', oomSeq) && Advanced(s, s', d, 1)
  {
    s' := s.(doms := s.doms[d := Scanned(s.doms[d], oomSeq, 1, 1)]);
    var next := QuietRuns(oomSeq);
    assert next(s, Scan(d, 1, 1), s');
    Prepend(next, s, Scan(d, 1, 1), s', [], s');
    es := [Scan(d, 1, 1)] + [];
  }

  // A vote is cast, and withdrawn at the next scan.
  lemma VoteAlone(oomSeq: int, s: State, d: nat) returns (es: seq<Event>, s': State)
    requires oomSeq >= 2 && AllRest(s, oomSeq) && d < |s.doms| && |s.doms| >= 2
    requires s.doms[d].seqn + 1 == oomSeq
    ensures Chain(QuietRuns(oomSeq), s, es, s') && AllRest(s', oomSeq) && Advanced(s, s', d, 1)
  {
    var scan := Scan(d, 1, 1);
    var d1 := Scanned(s.doms[d], oomSeq, 1, 1);
    var d2 := d1.(pc := Scanning);
    var d3 := Scanned(d2, oomSeq, 1, 1);
    var s1 := s.(doms := s.doms[d := d1]);
    var s2 := State(s1.doms[d := d2], 1);
    var s3 := s2.(doms := s2.doms[d := d3]);
    s' := State(s3.doms[d := d3.(pc := Scanning)], 0);
    var next := QuietRuns(oomSeq);
    assert next(s, scan, s1) && next(s1, Count(d), s2) && next(s2, scan, s3) && next(s3, Count(d), s');
    Prepend(next, s3, Count(d), s', [], s');
    Prepend(next, s2, scan, s3, [Count(d)] + [], s');
    Prepend(next, s1, Count(d), s2, [scan] + ([Count(d)] + []), s');
    es := [Count(d)] + ([scan] + ([Count(d)] + []));
    Prepend(next, s, scan, s1, es, s');
    es := [scan] + es;
  }

  lemma {:induction false} ScansAlone(oomSeq: int, s: State, d: nat, n: nat) returns (es: seq<Event>, s': State)
    requires oomSeq >= 2 && AllRest(s, oomSeq) && d < |s.doms| && |s.doms| >= 2
    ensures Chain(QuietRuns(oomSeq), s, es, s') && AllRest(s', oomSeq) && Advanced(s, s', d, n)
    decreases n
  {
    if n == 0 {
      es, s' := [], s;
    } else {
      var fs, mid;
      if s.doms[d].seqn + 1 < oomSeq {
        fs, mid := ScanAlone(oomSeq, s, d);
      } else {
        fs, mid := VoteAlone(oomSeq, s, d);
      }
      es, s' := ScansAlone(oomSeq, mid, d, n - 1);
      Append(QuietRuns(oomSeq), s, fs, mid, es, s');
      es := fs + es;
    }
  }

  lemma {:induction false} TakeTurns(oomSeq: int, s: State, k: nat, n: nat) returns (es: seq<Event>, s': State)
    requires oomSeq >= 2 && AllRest(s, oomSeq) && k <= |s.doms| && |s.doms| >= 2
    ensures Chain(QuietRuns(oomSeq), s, es, s') && AllRest(s', oomSeq) && |s'.doms| == |s.doms|
    ensures forall i :: 0 <= i < k ==> |s'.doms[i].scans| >= n
  {
    if k == 0 {
      es, s' := [], s;
    } else {
      var fs, mid := TakeTurns(oomSeq, s, k - 1, n);
      es, s' := ScansAlone(oomSeq, mid, k - 1, n);
      Append(QuietRuns(oomSeq), s, fs, mid, es, s');
      es := fs + es;
    }
  }

  lemma FailForEver(oomSeq: int, domains: nat, n: nat) returns (s0: State, es: seq<Event>, s: State)
    requires oomSeq >= 2 && domains >= 2
    ensures Initial(s0) && |s0.doms| == domains && Chain(QuietRuns(oomSeq), s0, es, s)
    ensures |s.doms| == domains
    ensures forall i :: 0 <= i < domains ==> |s.doms[i].scans| >= n && AllFailed(s.doms[i])
  {
    s0 := State(seq(domains, _ => Domain(false, 0, Scanning, [], 0)), 0);
    es, s := TakeTurns(oomSeq, s0, domains, n);
  }
}

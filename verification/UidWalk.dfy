/**
 The bounded walk over uid candidates at spawn (internal/agent/manager_spawn.go,
 internal/agent/df_bunker_63.go): create the user, scan its uid for foreign
 processes, and on a refusal release the account and pin the next uid.
 */
module UidWalk {
  import opened PortPool

  const MAX_UID: u32 := U32_SPAN - 1

  /** useradd: created, "already exists", "is not unique", or any other failure. */
  datatype Useradd = Added | Exists | Taken | Refused

  datatype UserLookup = NoSuchUser | NotNumeric | Uid(value: int)

  datatype UidScan = Unobservable | Clean | Foreign

  /** The host's answers during one round of the walk. */
  datatype RoundHost = RoundHost(useradd: Useradd, lookup: UserLookup, scan: UidScan, releaseOk: bool)

  /** What one round did; the options are None for steps that were not reached. */
  datatype Round = Round(pin: u32, useradd: Useradd, uid: Option<u32>, scan: Option<UidScan>, release: Option<bool>) {

    predicate Faithful(h: RoundHost) {
      && useradd == h.useradd
      && (uid.Some? ==> h.lookup.Uid? && uid.value == h.lookup.value % U32_SPAN)
      && (scan.Some? ==> scan.value == h.scan)
      && (release.Some? ==> release.value == h.releaseOk)
    }

    /** The candidate this round refused. */
    function Candidate(): u32 {
      if uid.Some? then uid.value else pin
    }

    /** This round refused its candidate: the pinned uid is taken, or the new account's uid has foreign processes. */
    predicate Refuses() {
      (pin != 0 && useradd.Taken?) || (useradd.Added? && scan == Some(Foreign))
    }

    /** The uid belongs to another account, so nothing was created. */
    predicate SkippedTaken() {
      pin != 0 && useradd.Taken? && uid.None? && scan.None? && release.None?
    }

    /** The account was created here, its uid has foreign processes, and it was released again. */
    predicate ReleasedForeign() {
      useradd.Added? && uid.Some? && scan == Some(Foreign) && release == Some(true)
    }
  }

  datatype Stage = UserCreate | IsolationProvision | UidCollision

  /** created: whether the account is this spawn's own, for the rollback to remove. */
  datatype Outcome = Proceed(uid: int, created: bool) | Failed(stage: Stage, created: bool)

  function NextUidCandidate(uid: u32): Option<u32> {
    if uid == MAX_UID then None else Some(uid + 1)
  }

  /** No room for another round: the retry limit or the top of the uid space. */
  predicate Exhausted(candidate: u32, rounds: nat, limit: nat) {
    rounds == limit + 1 || candidate == MAX_UID
  }

  /** A walk goes on only from a taken pin or a released account of its own. */
  predicate MayContinue(r: Round) {
    r.SkippedTaken() || r.ReleasedForeign()
  }

  /** Why the walk ended in this round. */
  predicate Ends(r: Round, h: RoundHost, o: Outcome, rounds: nat, limit: nat) {
    match o
    case Proceed(uid, created) =>
      && (r.useradd.Added? || r.useradd.Exists?) && created == r.useradd.Added?
      && h.lookup == Uid(uid) && r.uid.Some? && r.scan == Some(Clean) && r.release.None?
    case Failed(UserCreate, created) =>
      && !created && r.uid.None? && r.scan.None? && r.release.None?
      && (r.useradd.Refused? || (r.useradd.Taken? && (r.pin == 0 || Exhausted(r.pin, rounds, limit))))
    case Failed(IsolationProvision, created) =>
      && (r.useradd.Added? || r.useradd.Exists?) && created == r.useradd.Added?
      && h.lookup.NoSuchUser? && r.scan.None? && r.release.None?
    case Failed(UidCollision, created) =>
      && (r.useradd.Added? || r.useradd.Exists?) && created == r.useradd.Added?
      && (match r.scan
          case None => h.lookup.NotNumeric? && r.release.None?
          case Some(Unobservable) => r.release.None?
          case Some(Foreign) =>
            if r.release.Some? then created && r.release == Some(false)
            else r.uid.Some? && (!created || Exhausted(r.uid.value, rounds, limit))
          case Some(Clean) => false)
  }

  /** Every round but the last went on, each pinning the uid after the candidate before it. */
  ghost predicate Chained(log: seq<Round>) {
    && (|log| > 0 ==> log[0].pin == 0)
    && (forall k :: 0 <= k < |log| - 1 ==> MayContinue(log[k]) && log[k + 1].pin == log[k].Candidate() + 1)
  }

  /** Accounts are released only by the round that created them. */
  ghost predicate ReleasesOwn(log: seq<Round>) {
    forall k :: 0 <= k < |log| && log[k].release.Some? ==> log[k].useradd.Added? && log[k].scan == Some(Foreign)
  }

  ghost predicate Recorded(log: seq<Round>, host: nat -> RoundHost) {
    forall k :: 0 <= k < |log| ==> log[k].Faithful(host(k))
  }

  /** A scan that could not look is never followed by anything. */
  ghost predicate Observed(log: seq<Round>) {
    forall k :: 0 <= k < |log| ==> log[k].scan != Some(Unobservable)
  }

  ghost predicate Candidates(walked: seq<u32>, log: seq<Round>) {
    |walked| <= |log| && forall k :: 0 <= k < |walked| ==> walked[k] == log[k].Candidate()
  }

  /** The pin of the next round. */
  ghost predicate NextPin(log: seq<Round>, pin: u32) {
    if log == [] then pin == 0 else MayContinue(log[|log| - 1]) && pin == log[|log| - 1].Candidate() + 1
  }

  lemma Extend(log: seq<Round>, host: nat -> RoundHost, walked: seq<u32>, r: Round)
    requires Chained(log) && ReleasesOwn(log) && Recorded(log, host) && Candidates(walked, log)
    requires NextPin(log, r.pin) && r.Faithful(host(|log|))
    requires r.release.Some? ==> r.useradd.Added? && r.scan == Some(Foreign)
    ensures Chained(log + [r]) && ReleasesOwn(log + [r]) && Recorded(log + [r], host) && Candidates(walked, log + [r])
  {}

  /** One round up to the point where the walk ends or goes on. */
  method OneRound(pin: u32, h: RoundHost, rounds: nat, limit: nat) returns (r: Round, o: Option<Outcome>)
    requires 1 <= rounds <= limit + 1
    ensures r.pin == pin && r.Faithful(h)
    ensures o.Some? ==> Ends(r, h, o.value, rounds, limit)
    ensures o.None? ==> MayContinue(r) && rounds <= limit && r.Candidate() < MAX_UID
    ensures r.release.Some? ==> r.useradd.Added? && r.scan == Some(Foreign)
    ensures r.scan == Some(Unobservable) ==> o.Some? && o.value.Failed?
  {
    r := Round(pin, h.useradd, None, None, None);
    match h.useradd {
      case Refused => return r, Some(Failed(UserCreate, false));
      case Taken =>
        if pin == 0 {
          return r, Some(Failed(UserCreate, false));
        }
        var next := NextUidCandidate(pin);
        o := if next.None? || rounds == limit + 1 then Some(Failed(UserCreate, false)) else None;
        return;
      case Added =>
      case Exists =>
    }
    var created := h.useradd.Added?;
    match h.lookup {
      case NoSuchUser => return r, Some(Failed(IsolationProvision, created));
      case NotNumeric => return r, Some(Failed(UidCollision, created));
      case Uid(uid) =>
        r := r.(uid := Some(uid % U32_SPAN), scan := Some(h.scan));
        if h.scan.Clean? {
          return r, Some(Proceed(uid, created));
        }
        if h.scan.Unobservable? || !created {
          return r, Some(Failed(UidCollision, created));
        }
        var next := NextUidCandidate(uid % U32_SPAN);
        if next.None? || rounds == limit + 1 {
          return r, Some(Failed(UidCollision, created));
        }
        r := r.(release := Some(h.releaseOk));
        o := if h.releaseOk then None else Some(Failed(UidCollision, created));
    }
  }

  /**
   The walk, for every host: at most limit + 1 useradd calls, one per round of the log, each round
   after the first pinning the uid right above the candidate refused before it.
   */
  method Walk(host: nat -> RoundHost, limit: nat) returns (o: Outcome, log: seq<Round>, walked: seq<u32>)
    ensures 1 <= |log| <= limit + 1 && Chained(log) && ReleasesOwn(log) && Recorded(log, host)
    ensures Ends(log[|log| - 1], host(|log| - 1), o, |log|, limit)
    ensures Observed(log[..|log| - 1]) && (log[|log| - 1].scan == Some(Unobservable) ==> o.Failed?)
    ensures Candidates(walked, log) && |walked| == if log[|log| - 1].Refuses() then |log| else |log| - 1
  {
    log, walked := [], [];
    var pin: u32 := 0;
    var attempt: nat := 0;
    while true
      invariant attempt == |log| == |walked| <= limit
      invariant Chained(log) && ReleasesOwn(log) && Recorded(log, host) && Observed(log) && Candidates(walked, log)
      invariant NextPin(log, pin)
      decreases limit - attempt
    {
      var r, end := OneRound(pin, host(attempt), attempt + 1, limit);
      Extend(log, host, walked, r);
      ghost var before := log;
      log := log + [r];
      if r.Refuses() {
        walked := walked + [r.Candidate()];
      }
      if end.Some? {
        assert log[..attempt] == before;
        return end.value, log, walked;
      }
      pin := r.Candidate() + 1;
      attempt := attempt + 1;
    }
  }

  // ---- the candidates ----

  ghost predicate Increasing(s: seq<u32>) {
    forall i, j :: 0 <= i < j < |s| ==> s[i] < s[j]
  }

  /** The user database reports, for a pinned account, a uid no lower than the pin. */
  ghost predicate PinsHonoured(log: seq<Round>, n: nat)
    requires n <= |log|
  {
    forall k :: 1 <= k < n && log[k].uid.Some? ==> log[k].pin <= log[k].uid.value
  }

  lemma {:induction false} ChainedIncreasing(log: seq<Round>, walked: seq<u32>, n: nat)
    requires Chained(log) && n <= |walked| && Candidates(walked, log)
    requires PinsHonoured(log, n)
    ensures Increasing(walked[..n])
  {
    if n > 1 {
      ChainedIncreasing(log, walked, n - 1);
      assert walked[n - 2] == log[n - 2].Candidate() && walked[n - 1] == log[n - 1].Candidate();
      assert log[n - 1].pin == log[n - 2].Candidate() + 1;
      forall i | 0 <= i < n - 1 ensures walked[i] < walked[n - 1] {
        assert i < n - 2 ==> walked[..n - 1][i] < walked[..n - 1][n - 2];
      }
    }
  }

  /** The refused candidates strictly increase exactly when the host gave each pinned account at least its pin. */
  lemma RefusedIncreaseExactly(log: seq<Round>, walked: seq<u32>)
    requires Chained(log) && Candidates(walked, log)
    ensures Increasing(walked) <==> PinsHonoured(log, |walked|)
  {
    if PinsHonoured(log, |walked|) {
      ChainedIncreasing(log, walked, |walked|);
      assert walked[..|walked|] == walked;
    }
    if Increasing(walked) {
      forall k | 1 <= k < |walked| && log[k].uid.Some? ensures log[k].pin <= log[k].uid.value {
        assert walked[k - 1] < walked[k] && log[k - 1 + 1].pin == log[k - 1].Candidate() + 1;
      }
    }
  }

  /** With honoured pins no uid is handed out that the walk has refused before. */
  lemma NeverRevisits(log: seq<Round>, walked: seq<u32>, last: u32)
    requires Chained(log) && |walked| == |log| - 1 && Candidates(walked, log)
    requires PinsHonoured(log, |log|) && log[|log| - 1].uid == Some(last)
    ensures last !in walked
  {
    ChainedIncreasing(log, walked, |walked|);
    if |walked| > 0 {
      var n := |walked|;
      assert log[n - 1 + 1].pin == log[n - 1].Candidate() + 1;
      forall i | 0 <= i < n ensures walked[i] < last {
        assert i < n - 1 ==> walked[..n][i] < walked[..n][n - 1];
      }
    }
  }

  /** A host that ignores the pin makes the walk refuse the same uid again. */
  method RevisitsWithoutPins() returns (walked: seq<u32>)
    ensures walked == [1000, 1000, 1000]
  {
    var o, log;
    o, log, walked := Walk(k => RoundHost(Added, Uid(1000), Foreign, true), 2);
    assert log[0].Candidate() == 1000;
    assert |log| == 3;
  }
}

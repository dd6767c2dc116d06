/**
Acceptance of one invitation by any number of concurrent acceptors.

Each acceptor reads the row, claims it with a compare-and-set, creates a membership in
another transaction, and on failure tries to put the row back. Revocations and expiry
marks overwrite the status without looking at it. Every database transaction is one
step; all interleavings are runs. Creating the membership is atomic: it either commits
or leaves nothing behind.
*/
module Invitations {
  import opened Common

  type User = nat
  type Acceptor = nat
  type Time = int

  datatype Status = Pending | Accepted | Expired | Revoked

  /** How far an acceptor has got. */
  datatype Phase = Arrived | Checked | SawExpired | Claimed | CreationFailed | Succeeded | Refused

  datatype Attempt = Attempt(user: User, phase: Phase)

  datatype State = State(
    now: Time,
    expiresAt: Time,
    status: Status,
    acceptedBy: Option<User>,
    attempts: map<Acceptor, Attempt>,
    memberships: seq<User>)

  datatype Step =
    | Tick(elapsed: nat)
    | Arrive(acceptor: Acceptor, user: User)
    | Read(acceptor: Acceptor)
    | MarkExpired(acceptor: Acceptor)
    | Claim(acceptor: Acceptor)
    | CreateMembership(acceptor: Acceptor, ok: bool)
    | Revert(acceptor: Acceptor, ok: bool)
    | Revoke

  predicate InPhase(s: State, a: Acceptor, phase: Phase) {
    a in s.attempts && s.attempts[a].phase == phase
  }

  function Move(s: State, a: Acceptor, phase: Phase): State
    requires a in s.attempts
  {
    s.(attempts := s.attempts[a := s.attempts[a].(phase := phase)])
  }

  /** One transaction; a step that is not due changes nothing. */
  function Next(s: State, step: Step): State {
    match step
    case Tick(elapsed) => s.(now := s.now + elapsed)
    case Arrive(a, user) => if a in s.attempts then s else s.(attempts := s.attempts[a := Attempt(user, Arrived)])
    case Read(a) =>
      if !InPhase(s, a, Arrived) then s
      else if s.status != Pending then Move(s, a, Refused)
      else if s.expiresAt < s.now then Move(s, a, SawExpired)
      else Move(s, a, Checked)
    case MarkExpired(a) => if !InPhase(s, a, SawExpired) then s else Move(s, a, Refused).(status := Expired)
    case Claim(a) =>
      if !InPhase(s, a, Checked) then s
      else if s.status != Pending then Move(s, a, Refused)
      else Move(s, a, Claimed).(status := Accepted, acceptedBy := Some(s.attempts[a].user))
    case CreateMembership(a, ok) =>
      if !InPhase(s, a, Claimed) then s
      else if ok then Move(s, a, Succeeded).(memberships := s.memberships + [s.attempts[a].user])
      else Move(s, a, CreationFailed)
    case Revert(a, ok) =>
      if !InPhase(s, a, CreationFailed) then s
      else if ok then Move(s, a, Refused).(status := Pending, acceptedBy := None)
      else Move(s, a, Refused)
    case Revoke => s.(status := Revoked)
  }

  function Run(s: State, steps: seq<Step>): State
    decreases |steps|
  {
    if steps == [] then s else Next(Run(s, steps[..|steps| - 1]), steps[|steps| - 1])
  }

  function Issued(now: Time, expiresAt: Time): State {
    State(now, expiresAt, Pending, None, map[], [])
  }

  // ---- At most one membership ----

  /** The acceptor holds the claim, or has used it. */
  predicate Holds(s: State, a: Acceptor) {
    InPhase(s, a, Claimed) || InPhase(s, a, CreationFailed) || InPhase(s, a, Succeeded)
  }

  /** At most one acceptor ever holds the claim; while the row is pending, none does. */
  ghost predicate Exclusive(s: State) {
    && (forall a, b :: Holds(s, a) && Holds(s, b) ==> a == b)
    && (s.status == Pending ==> forall a :: !Holds(s, a))
    && (forall a :: InPhase(s, a, Succeeded) ==> s.memberships == [s.attempts[a].user])
    && (s.memberships == [] || exists a :: InPhase(s, a, Succeeded))
  }

  lemma NextExclusive(s: State, step: Step)
    requires Exclusive(s)
    ensures Exclusive(Next(s, step))
  {
    match step
    case Claim(a) => ClaimExclusive(s, a);
    case CreateMembership(a, ok) => CreateExclusive(s, a, ok);
    case Revert(a, ok) => RevertExclusive(s, a, ok);
    case _ => QuietExclusive(s, step);
  }

  /** Steps that neither take nor give back the claim. */
  lemma QuietExclusive(s: State, step: Step)
    requires Exclusive(s) && (step.Tick? || step.Arrive? || step.Read? || step.MarkExpired? || step.Revoke?)
    ensures Exclusive(Next(s, step))
  {
    forall a ensures QuietFor(s, Next(s, step), a) {
      QuietStep(s, step, a);
    }
    SameHolders(s, Next(s, step));
  }

  ghost predicate QuietFor(s: State, s': State, a: Acceptor) {
    && (Holds(s', a) <==> Holds(s, a)) && (InPhase(s', a, Succeeded) <==> InPhase(s, a, Succeeded))
    && (Holds(s, a) ==> s'.attempts[a].user == s.attempts[a].user)
  }

  lemma QuietStep(s: State, step: Step, a: Acceptor)
    requires step.Tick? || step.Arrive? || step.Read? || step.MarkExpired? || step.Revoke?
    ensures QuietFor(s, Next(s, step), a)
  {
  }

  lemma SameHolders(s: State, s': State)
    requires Exclusive(s) && s'.memberships == s.memberships && (s'.status == Pending ==> s.status == Pending)
    requires forall a :: QuietFor(s, s', a)
    ensures Exclusive(s')
  {
    forall a ensures (Holds(s', a) <==> Holds(s, a)) && (InPhase(s', a, Succeeded) <==> InPhase(s, a, Succeeded)) {
      assert QuietFor(s, s', a);
    }
    forall a | InPhase(s', a, Succeeded) ensures s'.memberships == [s'.attempts[a].user] {
      assert QuietFor(s, s', a) && Holds(s, a);
    }
  }

  lemma ClaimExclusive(s: State, a: Acceptor)
    requires Exclusive(s)
    ensures Exclusive(Next(s, Claim(a)))
  {
    var s' := Next(s, Claim(a));
    forall b | b != a ensures Holds(s', b) <==> Holds(s, b) {
    }
    forall b ensures InPhase(s', b, Succeeded) <==> InPhase(s, b, Succeeded) {
    }
  }

  lemma CreateExclusive(s: State, a: Acceptor, ok: bool)
    requires Exclusive(s)
    ensures Exclusive(Next(s, CreateMembership(a, ok)))
  {
    var s' := Next(s, CreateMembership(a, ok));
    if InPhase(s, a, Claimed) {
      assert Holds(s, a);
      forall b ensures !InPhase(s, b, Succeeded) {
        assert InPhase(s, b, Succeeded) ==> Holds(s, b);
      }
      forall b ensures Holds(s', b) <==> Holds(s, b) {
      }
      assert ok ==> InPhase(s', a, Succeeded);
    }
  }

  lemma RevertExclusive(s: State, a: Acceptor, ok: bool)
    requires Exclusive(s)
    ensures Exclusive(Next(s, Revert(a, ok)))
  {
    var s' := Next(s, Revert(a, ok));
    if InPhase(s, a, CreationFailed) {
      assert Holds(s, a);
      forall b ensures !Holds(s', b) {
        assert Holds(s', b) ==> Holds(s, b) && b != a;
      }
      forall b ensures InPhase(s', b, Succeeded) <==> InPhase(s, b, Succeeded) {
      }
    }
  }

  lemma {:induction false} RunExclusive(s: State, steps: seq<Step>)
    requires Exclusive(s)
    ensures Exclusive(Run(s, steps))
    decreases |steps|
  {
    if steps != [] {
      RunExclusive(s, steps[..|steps| - 1]);
      NextExclusive(Run(s, steps[..|steps| - 1]), steps[|steps| - 1]);
    }
  }

  /**
  Under every interleaving an invitation yields at most one membership, at most one
  acceptor succeeds, they go together, and a pending invitation has neither.
  */
  lemma AtMostOneMembership(now: Time, expiresAt: Time, steps: seq<Step>)
    ensures var s := Run(Issued(now, expiresAt), steps);
            && |s.memberships| <= 1
            && (forall a, b :: InPhase(s, a, Succeeded) && InPhase(s, b, Succeeded) ==> a == b)
            && (forall a :: InPhase(s, a, Succeeded) ==> s.memberships == [s.attempts[a].user])
            && (s.memberships != [] ==> exists a :: InPhase(s, a, Succeeded))
            && (s.status == Pending ==> s.memberships == [] && forall a :: !Holds(s, a))
  {
    RunExclusive(Issued(now, expiresAt), steps);
    var s := Run(Issued(now, expiresAt), steps);
    forall a | InPhase(s, a, Succeeded) ensures Holds(s, a) {
    }
  }

  // ---- When a revocation is final ----

  /** Somebody may still turn the revoked invitation into a membership. */
  ghost predicate InFlight(s: State) {
    || (exists a :: InPhase(s, a, Claimed))
    || (&& (exists a :: InPhase(s, a, CreationFailed))
        && (s.now <= s.expiresAt || exists a :: InPhase(s, a, Checked)))
  }

  /** No continuation adds a membership. */
  ghost predicate NeverAccepted(s: State) {
    forall steps :: Run(s, steps).memberships == s.memberships
  }

  /** Nobody can accept any more. */
  ghost predicate Closed(s: State) {
    && !InFlight(s)
    && (s.status != Pending || (s.expiresAt < s.now && forall a :: !InPhase(s, a, Checked)))
  }

  lemma NextClosed(s: State, step: Step)
    requires Closed(s)
    ensures Closed(Next(s, step)) && Next(s, step).memberships == s.memberships
  {
    var s' := Next(s, step);
    forall a | InPhase(s', a, Claimed) ensures InPhase(s, a, Claimed) {
    }
    forall a | InPhase(s', a, CreationFailed) ensures InPhase(s, a, CreationFailed) {
    }
    forall a | InPhase(s', a, Checked) ensures InPhase(s, a, Checked) || (step == Read(a) && s.now <= s.expiresAt) {
    }
  }

  lemma {:induction false} RunClosed(s: State, steps: seq<Step>)
    requires Closed(s)
    ensures Closed(Run(s, steps)) && Run(s, steps).memberships == s.memberships
    decreases |steps|
  {
    if steps != [] {
      RunClosed(s, steps[..|steps| - 1]);
      NextClosed(Run(s, steps[..|steps| - 1]), steps[|steps| - 1]);
    }
  }

  // ---- Short runs ----

  lemma RunOneMore(s: State, steps: seq<Step>, step: Step)
    ensures Run(s, steps + [step]) == Next(Run(s, steps), step)
  {
  }

  lemma RunTwo(s: State, e1: Step, e2: Step)
    ensures Run(s, [e1, e2]) == Next(Next(s, e1), e2)
  {
    RunOneMore(s, [], e1);
    RunOneMore(s, [e1], e2);
    assert [e1] == [] + [e1] && [e1, e2] == [e1] + [e2];
  }

  lemma RunThree(s: State, e1: Step, e2: Step, e3: Step)
    ensures Run(s, [e1, e2, e3]) == Next(Next(Next(s, e1), e2), e3)
  {
    RunTwo(s, e1, e2);
    RunOneMore(s, [e1, e2], e3);
    assert [e1, e2, e3] == [e1, e2] + [e3];
  }

  lemma {:induction false} RunAppend(s: State, some: seq<Step>, more: seq<Step>)
    ensures Run(s, some + more) == Run(Run(s, some), more)
    decreases |more|
  {
    if more == [] {
      assert some + more == some;
    } else {
      RunAppend(s, some, more[..|more| - 1]);
      assert (some + more)[..|some + more| - 1] == some + more[..|more| - 1];
    }
  }

  /** A claimer in flight gets in, whatever became of the row. */
  lemma ClaimerCompletes(s: State, a: Acceptor)
    requires InPhase(s, a, Claimed)
    ensures var s' := Run(s, [CreateMembership(a, true)]);
            InPhase(s', a, Succeeded) && s'.memberships == s.memberships + [s.attempts[a].user]
  {
    RunOneMore(s, [], CreateMembership(a, true));
    assert [] + [CreateMembership(a, true)] == [CreateMembership(a, true)];
  }

  /** A failed acceptor puts the row back, and somebody who may read it as pending goes through. */
  function ReopenSteps(a: Acceptor, b: Acceptor, user: User): seq<Step> {
    [Revert(a, true), Arrive(b, user), Read(b)] + [Claim(b), CreateMembership(b, true)]
  }

  /** A failed acceptor's revert reopens a revoked invitation, and another acceptor gets in through it. */
  lemma RevertReopens(s: State, a: Acceptor, b: Acceptor, user: User)
    requires s.status == Revoked && InPhase(s, a, CreationFailed)
    requires InPhase(s, b, Checked) || (s.now <= s.expiresAt && b !in s.attempts)
    ensures var s' := Run(s, ReopenSteps(a, b, user));
            && InPhase(s', b, Succeeded) && s'.status == Accepted
            && s'.acceptedBy == Some(s'.attempts[b].user) && s'.memberships == s.memberships + [s'.attempts[b].user]
  {
    var reread, accept := [Revert(a, true), Arrive(b, user), Read(b)], [Claim(b), CreateMembership(b, true)];
    Reread(s, a, b, user);
    RunTwo(Run(s, reread), Claim(b), CreateMembership(b, true));
    RunAppend(s, reread, accept);
  }

  lemma Reread(s: State, a: Acceptor, b: Acceptor, user: User)
    requires InPhase(s, a, CreationFailed)
    requires InPhase(s, b, Checked) || (s.now <= s.expiresAt && b !in s.attempts)
    ensures var s' := Run(s, [Revert(a, true), Arrive(b, user), Read(b)]);
            s'.status == Pending && InPhase(s', b, Checked) && s'.memberships == s.memberships
  {
    RunThree(s, Revert(a, true), Arrive(b, user), Read(b));
    var reverted := Next(s, Revert(a, true));
    assert reverted == Move(s, a, Refused).(status := Pending, acceptedBy := None);
  }

  lemma {:induction false} Newcomer(used: set<Acceptor>) returns (b: Acceptor)
    ensures forall a :: a in used ==> a < b
  {
    if used == {} {
      b := 0;
    } else {
      var a :| a in used;
      var c := Newcomer(used - {a});
      b := if a < c then c else a + 1;
      assert forall x :: x in used ==> x == a || x in used - {a};
    }
  }

  /**
  A revocation is final, in the sense that no membership can come of the invitation any
  more, exactly when no acceptor holds an unfinished claim that can still be completed
  or handed back in time.
  */
  lemma RevocationIsFinalIff(s: State)
    ensures NeverAccepted(Next(s, Revoke)) <==> !InFlight(s)
  {
    var s' := Next(s, Revoke);
    forall a, phase ensures InPhase(s', a, phase) <==> InPhase(s, a, phase) {
    }
    if InFlight(s) {
      if a :| InPhase(s, a, Claimed) {
        ClaimerCompletes(s', a);
      } else {
        var a :| InPhase(s, a, CreationFailed);
        var b: Acceptor;
        if c :| InPhase(s, c, Checked) {
          b := c;
        } else {
          b := Newcomer(s'.attempts.Keys);
        }
        RevertReopens(s', a, b, 0);
      }
    } else {
      forall steps ensures Run(s', steps).memberships == s'.memberships {
        RunClosed(s', steps);
      }
    }
  }

  /** What a revoker can see: the status of the row, and whether a membership has come of the invitation. */
  ghost predicate Seen(now: Time, expiresAt: Time, steps: seq<Step>, status: Status, accepted: bool) {
    var s := Run(Issued(now, expiresAt), steps);
    s.status == status && (s.memberships != []) == accepted
  }

  /** Whoever sees this can revoke and be sure. */
  ghost predicate RevocationIsSafe(status: Status, accepted: bool) {
    forall now, expiresAt, steps :: Seen(now, expiresAt, steps, status, accepted) ==>
      NeverAccepted(Next(Run(Issued(now, expiresAt), steps), Revoke))
  }

  /** In a reachable state that is pending or has its membership, nobody is in flight. */
  lemma NobodyInFlight(now: Time, expiresAt: Time, steps: seq<Step>)
    ensures var s := Run(Issued(now, expiresAt), steps);
            s.status == Pending || s.memberships != [] ==> !InFlight(s)
  {
    var s := Run(Issued(now, expiresAt), steps);
    RunExclusive(Issued(now, expiresAt), steps);
    if s.memberships != [] {
      var winner :| InPhase(s, winner, Succeeded);
      assert Holds(s, winner);
      forall a | Holds(s, a) ensures a == winner {
      }
    }
    forall a | InPhase(s, a, Claimed) || InPhase(s, a, CreationFailed) ensures Holds(s, a) {
    }
  }

  lemma ClaimRun()
    ensures Run(Issued(0, 0), [Arrive(0, 0), Read(0), Claim(0)])
            == State(0, 0, Accepted, Some(0), map[0 := Attempt(0, Claimed)], [])
  {
    RunThree(Issued(0, 0), Arrive(0, 0), Read(0), Claim(0));
    assert Next(Issued(0, 0), Arrive(0, 0)) == State(0, 0, Pending, None, map[0 := Attempt(0, Arrived)], []);
  }

  /** The claim comes in time for one acceptor while another has just read the row as expired. */
  function LateSteps(): seq<Step> {
    [Arrive(0, 0), Read(0), Arrive(1, 1)] + [Tick(1), Read(1)] + [Claim(0), MarkExpired(1)]
  }

  lemma LateRunStarts()
    ensures Run(Issued(0, 0), [Arrive(0, 0), Read(0), Arrive(1, 1)] + [Tick(1), Read(1)])
            == State(1, 0, Pending, None, map[0 := Attempt(0, Checked), 1 := Attempt(1, SawExpired)], [])
  {
    var s, arrive := Issued(0, 0), [Arrive(0, 0), Read(0), Arrive(1, 1)];
    BothArrive();
    RunTwo(Run(s, arrive), Tick(1), Read(1));
    RunAppend(s, arrive, [Tick(1), Read(1)]);
  }

  lemma BothArrive()
    ensures Run(Issued(0, 0), [Arrive(0, 0), Read(0), Arrive(1, 1)])
            == State(0, 0, Pending, None, map[0 := Attempt(0, Checked), 1 := Attempt(1, Arrived)], [])
  {
    RunThree(Issued(0, 0), Arrive(0, 0), Read(0), Arrive(1, 1));
    assert Next(Issued(0, 0), Arrive(0, 0)) == State(0, 0, Pending, None, map[0 := Attempt(0, Arrived)], []);
  }

  lemma LateRun()
    ensures Run(Issued(0, 0), LateSteps())
            == State(1, 0, Expired, Some(0), map[0 := Attempt(0, Claimed), 1 := Attempt(1, Refused)], [])
  {
    var early, finish := [Arrive(0, 0), Read(0), Arrive(1, 1)] + [Tick(1), Read(1)], [Claim(0), MarkExpired(1)];
    LateRunStarts();
    RunTwo(Run(Issued(0, 0), early), Claim(0), MarkExpired(1));
    RunAppend(Issued(0, 0), early, finish);
  }

  /** A claim in flight under an accepted, a revoked and an expired row. */
  lemma InFlightRun(status: Status) returns (steps: seq<Step>)
    requires status != Pending
    ensures Seen(0, 0, steps, status, false) && InFlight(Run(Issued(0, 0), steps))
  {
    steps := if status == Expired then LateSteps() else [Arrive(0, 0), Read(0), Claim(0)];
    if status == Expired {
      LateRun();
    } else {
      ClaimRun();
      if status == Revoked {
        RunOneMore(Issued(0, 0), steps, Revoke);
        steps := steps + [Revoke];
      }
    }
    assert InPhase(Run(Issued(0, 0), steps), 0, Claimed);
  }

  /** Over all runs of an issued invitation: a revocation is sure to be final exactly for a pending or an accomplished one. */
  lemma RevocationIsSafeIff(status: Status, accepted: bool)
    ensures RevocationIsSafe(status, accepted) <==> status == Pending || accepted
  {
    if status == Pending || accepted {
      forall now, expiresAt, steps | Seen(now, expiresAt, steps, status, accepted)
        ensures NeverAccepted(Next(Run(Issued(now, expiresAt), steps), Revoke))
      {
        NobodyInFlight(now, expiresAt, steps);
        RevocationIsFinalIff(Run(Issued(now, expiresAt), steps));
      }
    } else {
      var steps := InFlightRun(status);
      assert Seen(0, 0, steps, status, accepted);
      RevocationIsFinalIff(Run(Issued(0, 0), steps));
    }
  }

  // ---- The service object ----

  datatype AcceptError = NotPending | TooLate | CreationError

  /** The transactions of one acceptor, in order; those that do not become due change nothing. */
  function AcceptSteps(a: Acceptor, user: User, created: bool, reverted: bool): seq<Step> {
    [Arrive(a, user), Read(a), MarkExpired(a), Claim(a), CreateMembership(a, created), Revert(a, reverted)]
  }

  class InvitationRow {
    var state: State

    constructor (now: Time, expiresAt: Time)
      ensures state == Issued(now, expiresAt)
    {
      state := Issued(now, expiresAt);
    }

    method Step(step: Step)
      modifies this
      ensures state == Next(old(state), step)
    {
      state := Next(state, step);
    }

    /** An acceptor that nobody interferes with; created and reverted say whether the database lets it. */
    method Accept(a: Acceptor, user: User, created: bool, reverted: bool) returns (error: Option<AcceptError>)
      requires a !in state.attempts
      modifies this
      ensures state == Run(old(state), AcceptSteps(a, user, created, reverted))
      ensures error.None? <==> old(state).status == Pending && old(state).now <= old(state).expiresAt && created
      ensures error.None? ==> state.memberships == old(state).memberships + [user] && state.acceptedBy == Some(user)
                              && state.status == Accepted
      ensures error == Some(CreationError) ==>
                state.status == (if reverted then Pending else Accepted) && state.memberships == old(state).memberships
      ensures error == Some(TooLate) ==> state.status == Expired
      ensures error == Some(NotPending) ==> state.status == old(state).status
    {
      ghost var start := state;
      UnfoldAccept(start, a, user, created, reverted);
      Step(Arrive(a, user));
      Step(Read(a));
      if state.attempts[a].phase == Refused {
        return Some(NotPending);
      }
      if state.attempts[a].phase == SawExpired {
        Step(MarkExpired(a));
        return Some(TooLate);
      }
      Step(Claim(a));
      Step(CreateMembership(a, created));
      if !created {
        Step(Revert(a, reverted));
        return Some(CreationError);
      }
      return None;
    }
  }

  lemma UnfoldAccept(s: State, a: Acceptor, user: User, created: bool, reverted: bool)
    ensures Run(s, AcceptSteps(a, user, created, reverted))
            == Next(Next(Next(Next(Next(Next(s, Arrive(a, user)), Read(a)), MarkExpired(a)), Claim(a)),
                         CreateMembership(a, created)), Revert(a, reverted))
  {
    var some, more := [Arrive(a, user), Read(a), MarkExpired(a)], [Claim(a), CreateMembership(a, created), Revert(a, reverted)];
    RunThree(s, Arrive(a, user), Read(a), MarkExpired(a));
    RunThree(Run(s, some), Claim(a), CreateMembership(a, created), Revert(a, reverted));
    RunAppend(s, some, more);
    assert AcceptSteps(a, user, created, reverted) == some + more;
  }

  /** An issued invitation can be accepted up to and including its expiry, and becomes expired when it is tried later. */
  lemma IssuedIsAcceptable(now: Time, expiresAt: Time, delay: nat, a: Acceptor, user: User, created: bool, reverted: bool)
    ensures var s := Run(Next(Issued(now, expiresAt), Tick(delay)), AcceptSteps(a, user, created, reverted));
            if expiresAt < now + delay then s.status == Expired && s.memberships == []
            else if created then s.status == Accepted && s.memberships == [user] && s.acceptedBy == Some(user)
            else s.status == (if reverted then Pending else Accepted) && s.memberships == []
  {
    UnfoldAccept(Next(Issued(now, expiresAt), Tick(delay)), a, user, created, reverted);
  }
}

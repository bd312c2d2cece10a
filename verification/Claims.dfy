// The resume protocol: claim, release and consume of one checkpoint through two files, by any
// number of processes whose single file operations interleave in any order and that may stop
// between any two of them.

module Claims {
  import opened Wrappers

  type Proc = nat

  // The claim identity each process was given; callers choose them, and two may be the same.
  type Ids = Proc -> string

  // A file is created empty and written by a second operation.
  datatype File = Absent | Created(creator: Proc, written: bool)

  datatype Operation = CLAIM | RELEASE | CONSUME

  // The file operation a process performs next.
  datatype Pc =
    | Idle
    | ClaimCheck
    | ClaimCreate
    | ClaimWrite
    | ReleaseRead
    | ReleaseUnlink
    | ConsumeRead
    | ConsumeCreate
    | ConsumeWrite
    | ConsumeUnlink
    | Stopped

  // `holders` are the processes whose claim succeeded and that have not given it up since, `unlinks`
  // pairs every process that removed the claim file with the file's creator, `wins` are the
  // processes whose consume returned.
  datatype Sys = Sys(
    pcs: map<Proc, Pc>,
    claim: File,
    consumed: File,
    holders: set<Proc>,
    unlinks: seq<(Proc, Proc)>,
    wins: seq<Proc>)

  const START := Sys(map[], Absent, Absent, {}, [], [])

  datatype Step =
    | Begin(p: Proc, op: Operation)
    | Advance(p: Proc)
    | Stop(p: Proc)

  function At(s: Sys, p: Proc): Pc {
    if p in s.pcs then s.pcs[p] else Idle
  }

  function Goto(s: Sys, p: Proc, pc: Pc): Sys {
    s.(pcs := s.pcs[p := pc])
  }

  // Whether the claim file reads as this process's claim.
  predicate Names(ids: Ids, f: File, p: Proc) {
    f.Created? && f.written && ids(f.creator) == ids(p)
  }

  function Unlinked(s: Sys, p: Proc): Sys {
    s.(claim := Absent,
       holders := s.holders - {p},
       unlinks := if s.claim.Created? then s.unlinks + [(p, s.claim.creator)] else s.unlinks)
  }

  // One file operation of a process in the middle of a call.
  function Advanced(ids: Ids, s: Sys, p: Proc): Sys {
    match At(s, p)
    case Idle => s
    case Stopped => s
    case ClaimCheck => Goto(s, p, if s.consumed.Absent? then ClaimCreate else Idle)
    case ClaimCreate =>
      if s.claim.Absent? then Goto(s.(claim := Created(p, false)), p, ClaimWrite) else Goto(s, p, Idle)
    case ClaimWrite =>
      var written := if s.claim.Created? then s.claim.(written := true) else s.claim;
      Goto(s.(claim := written, holders := s.holders + {p}), p, Idle)
    case ReleaseRead => Goto(s, p, if Names(ids, s.claim, p) then ReleaseUnlink else Idle)
    case ReleaseUnlink => Goto(Unlinked(s, p), p, Idle)
    case ConsumeRead => Goto(s, p, if Names(ids, s.claim, p) then ConsumeCreate else Idle)
    case ConsumeCreate =>
      if s.consumed.Absent? then Goto(s.(consumed := Created(p, false)), p, ConsumeWrite) else Goto(s, p, Idle)
    case ConsumeWrite =>
      var written := if s.consumed.Created? then s.consumed.(written := true) else s.consumed;
      Goto(s.(consumed := written), p, ConsumeUnlink)
    case ConsumeUnlink => Goto(Unlinked(s, p).(wins := s.wins + [p]), p, Idle)
  }

  function Entry(op: Operation): Pc {
    match op case CLAIM => ClaimCheck case RELEASE => ReleaseRead case CONSUME => ConsumeRead
  }

  function Next(ids: Ids, s: Sys, step: Step): Sys {
    match step
    case Begin(p, op) => if At(s, p) == Idle then Goto(s, p, Entry(op)) else s
    case Advance(p) => Advanced(ids, s, p)
    case Stop(p) => Goto(s, p, Stopped)
  }

  function Run(ids: Ids, s: Sys, steps: seq<Step>): Sys
    decreases |steps|
  {
    if steps == [] then s else Run(ids, Next(ids, s, steps[0]), steps[1..])
  }

  // Release and consume are called by the process whose claim succeeded, as a resume calls them.
  predicate Disciplined(ids: Ids, s: Sys, steps: seq<Step>)
    decreases |steps|
  {
    steps == [] || (InTurn(s, steps[0]) && Disciplined(ids, Next(ids, s, steps[0]), steps[1..]))
  }

  predicate InTurn(s: Sys, step: Step) {
    step.Begin? && step.op != CLAIM ==> step.p in s.holders
  }

  ghost predicate Distinct(ids: Ids) {
    forall p, q | ids(p) == ids(q) :: p == q
  }

  // ---------- the invariant ----------

  // Where a process stands determines what the files must hold.
  predicate Consistent(s: Sys, p: Proc, disciplined: bool) {
    && (disciplined && At(s, p) in {ReleaseRead, ConsumeRead} ==> p in s.holders)
    && (At(s, p) == ClaimWrite ==> s.claim == Created(p, false))
    && (At(s, p) in {ReleaseUnlink, ConsumeCreate, ConsumeWrite, ConsumeUnlink} ==> s.claim == Created(p, true))
    && (At(s, p) == ConsumeWrite ==> s.consumed == Created(p, false) && s.wins == [])
    && (At(s, p) == ConsumeUnlink ==> s.consumed == Created(p, true) && s.wins == [])
    && (p in s.holders <==> s.claim == Created(p, true))
  }

  ghost predicate Inv(s: Sys, disciplined: bool) {
    && (forall p :: Consistent(s, p, disciplined))
    && (s.wins == [] || (|s.wins| == 1 && s.consumed == Created(s.wins[0], true)))
    && (forall i | 0 <= i < |s.unlinks| :: s.unlinks[i].0 == s.unlinks[i].1)
  }

  lemma StepKeepsInvariant(ids: Ids, s: Sys, step: Step, disciplined: bool)
    requires Inv(s, disciplined) && if disciplined then InTurn(s, step) else Distinct(ids)
    ensures Inv(Next(ids, s, step), disciplined)
  {
    var n := Next(ids, s, step);
    var p := step.p;
    assert Consistent(s, p, disciplined);
    forall q ensures Consistent(n, q, disciplined) {
      assert Consistent(s, q, disciplined);
    }
  }

  lemma {:induction false} RunKeepsInvariant(ids: Ids, s: Sys, steps: seq<Step>, disciplined: bool)
    requires Inv(s, disciplined) && if disciplined then Disciplined(ids, s, steps) else Distinct(ids)
    ensures Inv(Run(ids, s, steps), disciplined)
    decreases |steps|
  {
    if steps != [] {
      StepKeepsInvariant(ids, s, steps[0], disciplined);
      hide Inv, Next;
      RunKeepsInvariant(ids, Next(ids, s, steps[0]), steps[1..], disciplined);
    }
  }

  // In every run of resumers, and in every run of any callers with distinct claim identities: at most
  // one process holds the claim, and it is the one that created the file; the file is only ever removed
  // by the process that created it; and at most one consume ever returns, by the process that
  // created the consumed file.
  lemma AtMostOneResume(ids: Ids, steps: seq<Step>)
    requires Disciplined(ids, START, steps) || Distinct(ids)
    ensures var s := Run(ids, START, steps);
      && (forall p, q | p in s.holders && q in s.holders :: p == q)
      && (forall p :: p in s.holders <==> s.claim == Created(p, true))
      && (forall i | 0 <= i < |s.unlinks| :: s.unlinks[i].0 == s.unlinks[i].1)
      && |s.wins| <= 1
      && (s.wins != [] ==> s.consumed == Created(s.wins[0], true))
  {
    var disciplined := Disciplined(ids, START, steps);
    assert Inv(START, disciplined);
    RunKeepsInvariant(ids, START, steps, disciplined);
    var s := Run(ids, START, steps);
    forall p ensures p in s.holders <==> s.claim == Created(p, true) {
      assert Consistent(s, p, disciplined);
    }
  }

  lemma {:induction false} RunSplits(ids: Ids, s: Sys, first: seq<Step>, second: seq<Step>)
    ensures Run(ids, s, first + second) == Run(ids, Run(ids, s, first), second)
    decreases |first|
  {
    if first == [] {
      assert first + second == second;
    } else {
      assert (first + second)[1..] == first[1..] + second;
      RunSplits(ids, Next(ids, s, first[0]), first[1..], second);
    }
  }

  // Once the consumed file exists, only the process that created it can still return from consume.
  lemma {:induction false} ConsumptionIsFinal(ids: Ids, s: Sys, steps: seq<Step>, owner: Proc, disciplined: bool)
    requires Inv(s, disciplined) && if disciplined then Disciplined(ids, s, steps) else Distinct(ids)
    requires s.consumed.Created? && s.consumed.creator == owner && (s.wins != [] ==> s.wins[0] == owner)
    ensures var t := Run(ids, s, steps); t.consumed.Created? && t.consumed.creator == owner && (t.wins != [] ==> t.wins[0] == owner)
    decreases |steps|
  {
    if steps != [] {
      StepKeepsInvariant(ids, s, steps[0], disciplined);
      assert Consistent(s, steps[0].p, disciplined);
      ConsumptionIsFinal(ids, Next(ids, s, steps[0]), steps[1..], owner, disciplined);
    }
  }

  // ---------- calls that run undisturbed ----------

  function Call(p: Proc, op: Operation, n: nat): seq<Step> {
    if n == 0 then [Begin(p, op)] else Call(p, op, n - 1) + [Advance(p)]
  }

  lemma {:induction false} RunSnoc(ids: Ids, s: Sys, steps: seq<Step>, last: Step)
    ensures Run(ids, s, steps + [last]) == Next(ids, Run(ids, s, steps), last)
  {
    RunSplits(ids, s, steps, [last]);
    assert [last][1..] == [];
  }

  // The state with a process back at rest.
  function Rested(s: Sys, p: Proc): Sys {
    s.(pcs := s.pcs[p := Idle])
  }

  lemma GotoTwice(s: Sys, p: Proc, first: Pc, last: Pc)
    ensures Goto(Goto(s, p, first), p, last) == Goto(s, p, last)
  {
    assert s.pcs[p := first][p := last] == s.pcs[p := last];
  }

  // An undisturbed claim takes the free claim file of an unconsumed checkpoint, and nothing else.
  lemma ClaimAlone(ids: Ids, s: Sys, p: Proc)
    requires At(s, p) == Idle
    ensures var t := Run(ids, s, Call(p, CLAIM, 3));
      t == if s.consumed.Absent? && s.claim.Absent?
           then Rested(s, p).(claim := Created(p, true), holders := s.holders + {p})
           else Rested(s, p)
  {
    RunSnoc(ids, s, Call(p, CLAIM, 2), Advance(p));
    RunSnoc(ids, s, Call(p, CLAIM, 1), Advance(p));
    RunSnoc(ids, s, Call(p, CLAIM, 0), Advance(p));
    assert Run(ids, s, Call(p, CLAIM, 0)) == Next(ids, s, Begin(p, CLAIM));
    GotoTwice(s, p, ClaimCheck, if s.consumed.Absent? then ClaimCreate else Idle);
    hide Run, Call;
    var t := s.(claim := Created(p, false));
    GotoTwice(s, p, ClaimCreate, Idle);
    GotoTwice(t, p, ClaimWrite, Idle);
    GotoTwice(s, p, ClaimCreate, ClaimWrite);
  }

  // An undisturbed release removes the process's own claim, and nothing else.
  lemma ReleaseAlone(ids: Ids, s: Sys, p: Proc)
    requires At(s, p) == Idle
    ensures var t := Run(ids, s, Call(p, RELEASE, 2));
      t == if Names(ids, s.claim, p)
           then Rested(s, p).(claim := Absent, holders := s.holders - {p}, unlinks := s.unlinks + [(p, s.claim.creator)])
           else Rested(s, p)
  {
    RunSnoc(ids, s, Call(p, RELEASE, 1), Advance(p));
    RunSnoc(ids, s, Call(p, RELEASE, 0), Advance(p));
    assert Run(ids, s, Call(p, RELEASE, 0)) == Next(ids, s, Begin(p, RELEASE));
    hide Run, Call;
    GotoTwice(s, p, ReleaseRead, if Names(ids, s.claim, p) then ReleaseUnlink else Idle);
    GotoTwice(s, p, ReleaseUnlink, Idle);
  }

  // An undisturbed consume by the holder of an unconsumed checkpoint returns; otherwise it changes nothing.
  lemma ConsumeAlone(ids: Ids, s: Sys, p: Proc)
    requires At(s, p) == Idle
    ensures var t := Run(ids, s, Call(p, CONSUME, 4));
      t == if Names(ids, s.claim, p) && s.consumed.Absent?
           then Rested(s, p).(claim := Absent, consumed := Created(p, true), holders := s.holders - {p},
                             unlinks := s.unlinks + [(p, s.claim.creator)], wins := s.wins + [p])
           else Rested(s, p)
  {
    RunSnoc(ids, s, Call(p, CONSUME, 3), Advance(p));
    RunSnoc(ids, s, Call(p, CONSUME, 2), Advance(p));
    RunSnoc(ids, s, Call(p, CONSUME, 1), Advance(p));
    RunSnoc(ids, s, Call(p, CONSUME, 0), Advance(p));
    assert Run(ids, s, Call(p, CONSUME, 0)) == Next(ids, s, Begin(p, CONSUME));
    hide Run, Call;
    var s1 := Goto(s, p, ConsumeRead);
    var s2 := Goto(s, p, if Names(ids, s.claim, p) then ConsumeCreate else Idle);
    GotoTwice(s, p, ConsumeRead, s2.pcs[p]);
    assert Next(ids, s1, Advance(p)) == s2;
    if !Names(ids, s.claim, p) || !s.consumed.Absent? {
      GotoTwice(s, p, ConsumeCreate, Idle);
    } else {
      WinningConsume(ids, s, p);
    }
  }

  lemma WinningConsume(ids: Ids, s: Sys, p: Proc)
    requires Names(ids, s.claim, p) && s.consumed.Absent?
    ensures Next(ids, Next(ids, Next(ids, Goto(s, p, ConsumeCreate), Advance(p)), Advance(p)), Advance(p))
      == Rested(s, p).(claim := Absent, consumed := Created(p, true), holders := s.holders - {p},
                       unlinks := s.unlinks + [(p, s.claim.creator)], wins := s.wins + [p])
  {
    GotoTwice(s, p, ConsumeCreate, ConsumeWrite);
    GotoTwice(s, p, ConsumeWrite, ConsumeUnlink);
    GotoTwice(s, p, ConsumeUnlink, Idle);
    var s3 := Goto(s.(consumed := Created(p, false)), p, ConsumeWrite);
    assert Next(ids, Goto(s, p, ConsumeCreate), Advance(p)) == s3;
    var s4 := Goto(s.(consumed := Created(p, true)), p, ConsumeUnlink);
    assert Next(ids, s3, Advance(p)) == s4;
  }

  // A claim can still be taken after the checkpoint was consumed: a process that looked for the
  // consumed file before it appeared creates the claim after the winner has removed its own. Its
  // consume then fails, and leaves that claim behind.
  lemma ClaimCanOutliveConsumption(ids: Ids)
    ensures exists steps :: Leaked(Run(ids, START, steps))
  {
    var look := Call(1, CLAIM, 1);
    var s1 := Run(ids, START, look);
    RunSnoc(ids, START, Call(1, CLAIM, 0), Advance(1));
    assert Run(ids, START, Call(1, CLAIM, 0)) == Next(ids, START, Begin(1, CLAIM));
    assert s1 == START.(pcs := map[1 := ClaimCreate]);
    var rest := Call(0, CLAIM, 3) + Call(0, CONSUME, 4) + ([Advance(1)] + [Advance(1)]) + Call(1, CONSUME, 4);
    RunSplits(ids, START, look, rest);
    hide Run, Call, Next;
    LateClaimLeaks(ids, s1, rest);
  }

  lemma LateClaimLeaks(ids: Ids, s: Sys, rest: seq<Step>)
    requires s == START.(pcs := map[1 := ClaimCreate])
    requires rest == Call(0, CLAIM, 3) + Call(0, CONSUME, 4) + ([Advance(1)] + [Advance(1)]) + Call(1, CONSUME, 4)
    ensures Leaked(Run(ids, s, rest))
  {
    hide Run, Call;
    RunSplits(ids, s, Call(0, CLAIM, 3), Call(0, CONSUME, 4));
    RunSplits(ids, s, Call(0, CLAIM, 3) + Call(0, CONSUME, 4), [Advance(1)] + [Advance(1)]);
    RunSplits(ids, s, Call(0, CLAIM, 3) + Call(0, CONSUME, 4) + ([Advance(1)] + [Advance(1)]), Call(1, CONSUME, 4));
    ClaimAlone(ids, s, 0);
    var s2 := Run(ids, s, Call(0, CLAIM, 3));
    ConsumeAlone(ids, s2, 0);
    var s3 := Run(ids, s2, Call(0, CONSUME, 4));
    assert At(s3, 1) == ClaimCreate && s3.claim == Absent && s3.holders == {} && s3.wins == [0] && s3.consumed == Created(0, true);
    hide Next, Rested;
    LateCreation(ids, s3);
    var s5 := Run(ids, s3, [Advance(1)] + [Advance(1)]);
    ConsumeAlone(ids, s5, 1);
    LosingConsumeLeaks(ids, s5);
  }

  lemma LateCreation(ids: Ids, s: Sys)
    requires At(s, 1) == ClaimCreate && s.claim == Absent && s.holders == {} && s.wins == [0] && s.consumed == Created(0, true)
    ensures var t := Run(ids, s, [Advance(1)] + [Advance(1)]); Leaked(t) && t.consumed == Created(0, true)
  {
    RunSnoc(ids, s, [Advance(1)], Advance(1));
    RunSnoc(ids, s, [], Advance(1));
    assert [] + [Advance(1)] == [Advance(1)];
  }

  lemma LosingConsumeLeaks(ids: Ids, s: Sys)
    requires Leaked(s) && s.consumed == Created(0, true)
    requires Run(ids, s, Call(1, CONSUME, 4)) == Rested(s, 1)
    ensures Leaked(Run(ids, s, Call(1, CONSUME, 4)))
  {
    hide Run, Call;
  }

  // Process 0 has consumed the checkpoint and process 1, idle, still holds a claim on it.
  predicate Leaked(s: Sys) {
    s.wins == [0] && s.holders == {1} && s.claim == Created(1, true) && At(s, 1) == Idle
  }

  // ---------- claims after the consumption ----------

  // A process is about to complete its claim, or stands past its look at the consumed file while the
  // claim file is free or belongs to another process that can still remove it.
  ghost predicate Takable(s: Sys) {
    exists p :: AboutToTake(s, p)
  }

  predicate AboutToTake(s: Sys, p: Proc) {
    || At(s, p) == ClaimWrite
    || (At(s, p) == ClaimCreate
        && (s.claim.Absent? || (s.claim.written && s.claim.creator != p && At(s, s.claim.creator) != Stopped)))
  }

  // The steps are ones that callers take.
  ghost predicate Legal(ids: Ids, s: Sys, steps: seq<Step>, disciplined: bool) {
    if disciplined then Disciplined(ids, s, steps) else Distinct(ids)
  }

  ghost predicate Taken(ids: Ids, s: Sys, steps: seq<Step>, disciplined: bool) {
    Legal(ids, s, steps, disciplined) && exists p :: p in Run(ids, s, steps).holders && p !in s.holders
  }

  // Once the checkpoint is consumed, its claim can still be taken in some continuation exactly when a
  // process got past its look at the consumed file in time; otherwise no process takes it ever again.
  lemma {:induction false} LateClaims(ids: Ids, s: Sys, disciplined: bool)
    requires Inv(s, disciplined) && s.consumed.Created? && (disciplined || Distinct(ids))
    ensures (exists steps :: Taken(ids, s, steps, disciplined)) <==> Takable(s)
  {
    if Takable(s) {
      var p :| AboutToTake(s, p);
      var steps := LateClaimSteps(ids, s, p, disciplined);
      assert Taken(ids, s, steps, disciplined);
    } else {
      forall steps | Legal(ids, s, steps, disciplined) ensures Run(ids, s, steps).holders <= s.holders {
        NoLateClaim(ids, s, steps, disciplined);
      }
    }
  }

  lemma {:induction false} NoLateClaim(ids: Ids, s: Sys, steps: seq<Step>, disciplined: bool)
    requires Inv(s, disciplined) && s.consumed.Created? && !Takable(s) && Legal(ids, s, steps, disciplined)
    ensures var t := Run(ids, s, steps); t.consumed.Created? && !Takable(t) && t.holders <= s.holders
    decreases |steps|
  {
    if steps != [] {
      StepKeepsInvariant(ids, s, steps[0], disciplined);
      NoLateStep(ids, s, steps[0], disciplined);
      hide Inv, Next, Takable;
      NoLateClaim(ids, Next(ids, s, steps[0]), steps[1..], disciplined);
    }
  }

  lemma NoLateStep(ids: Ids, s: Sys, step: Step, disciplined: bool)
    requires Inv(s, disciplined) && s.consumed.Created? && !Takable(s)
    requires if disciplined then InTurn(s, step) else Distinct(ids)
    ensures var n := Next(ids, s, step); n.consumed.Created? && !Takable(n) && n.holders <= s.holders
  {
    var n := Next(ids, s, step);
    var p := step.p;
    assert Consistent(s, p, disciplined) && !AboutToTake(s, p);
    forall q ensures !AboutToTake(n, q) {
      assert Consistent(s, q, disciplined) && !AboutToTake(s, q);
    }
  }

  // Steps after which a late claim has been taken.
  lemma LateClaimSteps(ids: Ids, s: Sys, p: Proc, disciplined: bool) returns (steps: seq<Step>)
    requires Inv(s, disciplined) && s.consumed.Created? && AboutToTake(s, p) && (disciplined || Distinct(ids))
    ensures Legal(ids, s, steps, disciplined) && p in Run(ids, s, steps).holders && p !in s.holders
  {
    assert Consistent(s, p, disciplined);
    if At(s, p) == ClaimWrite {
      steps := [Advance(p)];
    } else {
      var leaving := [];
      if s.claim.Created? {
        leaving := LeavingSteps(ids, s, s.claim.creator, p, disciplined);
      }
      var t := Run(ids, s, leaving);
      var taking := [Advance(p)] + [Advance(p)];
      RunSnoc(ids, t, [Advance(p)], Advance(p));
      RunSnoc(ids, t, [], Advance(p));
      assert [] + [Advance(p)] == [Advance(p)];
      steps := leaving + taking;
      RunSplits(ids, s, leaving, taking);
      if disciplined {
        assert taking[1..] == [Advance(p)];
        DisciplinedSplits(ids, s, leaving, taking);
      }
    }
  }

  lemma {:induction false} DisciplinedSplits(ids: Ids, s: Sys, first: seq<Step>, second: seq<Step>)
    requires Disciplined(ids, s, first) && Disciplined(ids, Run(ids, s, first), second)
    ensures Disciplined(ids, s, first + second)
    decreases |first|
  {
    if first == [] {
      assert first + second == second;
    } else {
      assert (first + second)[1..] == first[1..] + second;
      DisciplinedSplits(ids, Next(ids, s, first[0]), first[1..], second);
    }
  }

  // How many steps a holder is from having removed its claim, once the checkpoint is consumed.
  function ToLeave(pc: Pc): nat {
    match pc
    case ReleaseUnlink => 1
    case ConsumeUnlink => 1
    case ReleaseRead => 2
    case ConsumeWrite => 2
    case Idle => 3
    case ConsumeRead => 5
    case _ => 4
  }

  // A holder that has not stopped can finish its call, release, and be gone.
  lemma {:induction false} LeavingSteps(ids: Ids, s: Sys, q: Proc, p: Proc, disciplined: bool) returns (steps: seq<Step>)
    requires Inv(s, disciplined) && s.consumed.Created? && s.claim == Created(q, true) && At(s, q) != Stopped && p != q
    requires disciplined || Distinct(ids)
    ensures Legal(ids, s, steps, disciplined)
    ensures var t := Run(ids, s, steps); t.claim.Absent? && t.consumed.Created? && At(t, p) == At(s, p)
    decreases ToLeave(At(s, q))
  {
    assert Consistent(s, q, disciplined);
    var step := if At(s, q) == Idle then Begin(q, RELEASE) else Advance(q);
    var n := Next(ids, s, step);
    StepKeepsInvariant(ids, s, step, disciplined);
    var rest := [];
    if n.claim.Created? {
      rest := LeavingSteps(ids, n, q, p, disciplined);
    }
    steps := [step] + rest;
    assert steps[1..] == rest;
  }
}

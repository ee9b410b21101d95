/** How long a settle goes on: the hook is asked again as long as it answers True, up to the advance's budget. */
module Settles {
  import opened Times
  import opened ClockModel
  import opened Runs
  import C = Conservation

  /** How often the hook answered that there was more to wait for. */
  function Trues(ms: seq<Move>): nat {
    multiset(ms)[RoundDone(true)]
  }

  /** No failure and no end of the settle among the moves. */
  predicate GoesOn(ms: seq<Move>) {
    Raise !in ms && RoundDone(false) !in ms
  }

  lemma TruesAppend(a: seq<Move>, b: seq<Move>)
    ensures Trues(a + b) == Trues(a) + Trues(b)
  {}

  lemma StepSettles(s: Config, m: Move, k: nat)
    requires C.Inv(s) && s.p.hooked && s.pc.Settling? && s.pc.rounds == k && m != Raise && m != RoundDone(false)
    requires k + Trues([m]) < s.p.maxSettles
    ensures Step(s, m).pc == Settling(s.pc.point, k + Trues([m])) && Step(s, m).p == s.p
    ensures m.RoundDone? ==> Step(s, m).c == s.c
  {
    assert Trues([m]) == if m == RoundDone(true) then 1 else 0;
  }

  /** Whatever tasks do in between, fewer True answers than the budget leave the driver where it settles. */
  lemma {:induction false} StaysSettling(s: Config, ms: seq<Move>)
    requires C.Inv(s) && s.p.hooked && s.pc.Settling? && GoesOn(ms) && s.pc.rounds + Trues(ms) < s.p.maxSettles
    ensures var n := Run(s, ms); n.pc == Settling(s.pc.point, s.pc.rounds + Trues(ms)) && n.p == s.p && C.Inv(n)
    decreases |ms|
  {
    hide Step, C.Inv;
    if ms != [] {
      assert ms == [ms[0]] + ms[1..];
      TruesAppend([ms[0]], ms[1..]);
      StepSettles(s, ms[0], s.pc.rounds);
      C.StepInv(s, ms[0]);
      StaysSettling(Step(s, ms[0]), ms[1..]);
    }
  }

  /** A failed advance: time stays, nothing is served or forgotten, and all that the advance held is in the heap. */
  ghost predicate FailedFrom(s: Config, n: Config) {
    && n.pc == Resting(Failed) && n.c.now == s.c.now && n.c.trace == s.c.trace
    && n.c.known == s.c.known && n.c.cancelled == s.c.cancelled && n.c.nextSeq == s.c.nextSeq
    && n.c.heap == C.Held(s.c) && n.c.instant == {} && n.c.deferred == {} && n.c.anchor == None && !n.c.advancing
  }

  /** Whatever is raised in a settle fails the advance so. */
  lemma RaiseFails(s: Config)
    requires s.pc.Settling?
    ensures FailedFrom(s, Step(s, Raise))
  {}

  lemma LastTrueFails(s: Config)
    requires s.pc.Settling? && s.p.hooked && s.pc.rounds + 1 == s.p.maxSettles
    ensures FailedFrom(s, Step(s, RoundDone(true)))
  {}

  /** The whole settle, from its start: while it goes on with fewer True answers than the budget, one False answer ends
      it with the clock as it is, one more True answer below the budget does not, and the one that uses up the budget
      fails the advance, time and history as they are. */
  lemma SettleBudget(s: Config, ms: seq<Move>)
    requires C.Inv(s) && s.p.hooked && s.pc.Settling? && s.pc.rounds == 0 && GoesOn(ms) && Trues(ms) < s.p.maxSettles
    ensures var n, done, more := Run(s, ms), Run(s, ms + [RoundDone(false)]), Run(s, ms + [RoundDone(true)]);
      && n.pc.Settling?
      && done.pc == (if s.pc.point == End then Peeking else Popping) && done.c == n.c
      && (Trues(ms) + 1 < s.p.maxSettles ==> more.pc.Settling? && more.pc.point == s.pc.point && more.c == n.c)
      && (Trues(ms) + 1 == s.p.maxSettles ==> FailedFrom(n, more))
  {
    StaysSettling(s, ms);
    RunSnoc(s, ms, RoundDone(false));
    RunSnoc(s, ms, RoundDone(true));
    if Trues(ms) + 1 == s.p.maxSettles { LastTrueFails(Run(s, ms)); }
    hide Run, FailedFrom, C.Inv, Client, Find;
  }

  /** Without a hook one round is the whole settle, whatever it answers. */
  lemma SettlesOnce(s: Config, more: bool)
    requires s.pc.Settling? && !s.p.hooked
    ensures Step(s, RoundDone(more)) == s.(pc := if s.pc.point == End then Peeking else Popping)
  {}
}

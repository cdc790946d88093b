/** Webhook deliveries: claim, process, mark, under any interleaving of requests.

    Each request that passed all header and signature checks is a handler; a
    handler may die at any point, and a database call may fail. */
module Webhooks {

  datatype Delivery = Delivery(forge: string, id: string)

  datatype Handler =
    | Verified(delivery: Delivery)                 // checked, not yet claimed
    | Claimed(delivery: Delivery)                  // its claim inserted the row
    | Processed(delivery: Delivery, failed: bool)  // the processor ran
    | Accepted(delivery: Delivery, first: bool)    // answered 202
    | Errored(delivery: Delivery)                  // answered 500
    | Dead(delivery: Delivery)

  /** `ledger` is the delivery table: whether the row was marked.  `runs` counts what the
      processor was given. */
  datatype Server = Server(handlers: seq<Handler>, ledger: map<Delivery, bool>, runs: multiset<Delivery>)

  datatype Step =
    | Arrive(delivery: Delivery)
    | Claim(handler: nat, ok: bool)
    | Process(handler: nat, fails: bool)
    | Mark(handler: nat, ok: bool)
    | Die(handler: nat)

  predicate Enabled(s: Server, step: Step)
  {
    match step
    case Arrive(_) => true
    case Claim(i, _) => i < |s.handlers| && s.handlers[i].Verified?
    case Process(i, _) => i < |s.handlers| && s.handlers[i].Claimed?
    case Mark(i, _) => i < |s.handlers| && s.handlers[i].Processed?
    case Die(i) => i < |s.handlers|
  }

  function Move(s: Server, i: nat, h: Handler): Server
    requires i < |s.handlers|
  {
    s.(handlers := s.handlers[i := h])
  }

  function Apply(s: Server, step: Step): Server
    requires Enabled(s, step)
  {
    match step
    case Arrive(d) => s.(handlers := s.handlers + [Verified(d)])
    case Claim(i, ok) =>
      var d := s.handlers[i].delivery;
      if !ok then Move(s, i, Errored(d))
      else if d in s.ledger then Move(s, i, Accepted(d, false))
      else Move(s, i, Claimed(d)).(ledger := s.ledger[d := false])
    case Process(i, fails) =>
      var d := s.handlers[i].delivery;
      Move(s, i, Processed(d, fails)).(runs := s.runs + multiset{d})
    case Mark(i, ok) =>
      var h := s.handlers[i];
      // The update finds no row when nothing was claimed; then the answer is an error.
      if !ok || h.delivery !in s.ledger then Move(s, i, Errored(h.delivery))
      else Move(s, i, if h.failed then Errored(h.delivery) else Accepted(h.delivery, true)).(ledger := s.ledger[h.delivery := true])
    case Die(i) => Move(s, i, Dead(s.handlers[i].delivery))
  }

  /** The handler inserted the row and has not finished with it. */
  predicate Holds(h: Handler)
  {
    h.Claimed? || h.Processed?
  }

  ghost predicate Inv(s: Server)
  {
    && (forall i :: 0 <= i < |s.handlers| && Holds(s.handlers[i]) ==> s.handlers[i].delivery in s.ledger)
    && (forall i, j | 0 <= i < j < |s.handlers| && Holds(s.handlers[i]) && Holds(s.handlers[j]) ::
          s.handlers[i].delivery != s.handlers[j].delivery)
    && (forall i :: 0 <= i < |s.handlers| && s.handlers[i].Claimed? ==>
          s.runs[s.handlers[i].delivery] == 0 && !s.ledger[s.handlers[i].delivery])
    && (forall i :: 0 <= i < |s.handlers| && s.handlers[i].Processed? ==> s.runs[s.handlers[i].delivery] == 1)
    && (forall d :: s.runs[d] <= 1 && (s.runs[d] == 1 ==> d in s.ledger))
    && (forall d :: d in s.ledger && s.ledger[d] ==> s.runs[d] == 1)
    && (forall i :: 0 <= i < |s.handlers| && s.handlers[i].Accepted? ==> s.handlers[i].delivery in s.ledger)
    && (forall i :: 0 <= i < |s.handlers| && s.handlers[i] == Accepted(s.handlers[i].delivery, true) ==>
          s.ledger[s.handlers[i].delivery])
  }

  lemma ArriveKeeps(s: Server, step: Step)
    requires Inv(s) && Enabled(s, step) && step.Arrive?
    ensures Inv(Apply(s, step))
  {
  }

  lemma DieKeeps(s: Server, step: Step)
    requires Inv(s) && Enabled(s, step) && step.Die?
    ensures Inv(Apply(s, step))
  {
  }

  /** An answer that claims nothing. */
  lemma AnswerKeeps(s: Server, i: nat, h: Handler)
    requires Inv(s) && i < |s.handlers| && (h.Errored? || (h.Accepted? && !h.first && h.delivery in s.ledger))
    ensures Inv(Move(s, i, h))
  {
  }

  lemma NewClaimKeeps(s: Server, i: nat)
    requires Inv(s) && i < |s.handlers| && s.handlers[i].Verified? && s.handlers[i].delivery !in s.ledger
    ensures var d := s.handlers[i].delivery; Inv(Move(s, i, Claimed(d)).(ledger := s.ledger[d := false]))
  {
  }

  lemma ClaimKeeps(s: Server, step: Step)
    requires Inv(s) && Enabled(s, step) && step.Claim?
    ensures Inv(Apply(s, step))
  {
    hide Inv, Move;
    var i := step.handler;
    var d := s.handlers[i].delivery;
    if !step.ok {
      AnswerKeeps(s, i, Errored(d));
    } else if d in s.ledger {
      AnswerKeeps(s, i, Accepted(d, false));
    } else {
      NewClaimKeeps(s, i);
    }
  }

  lemma ProcessKeeps(s: Server, step: Step)
    requires Inv(s) && Enabled(s, step) && step.Process?
    ensures Inv(Apply(s, step))
  {
  }

  lemma MarkKeeps(s: Server, step: Step)
    requires Inv(s) && Enabled(s, step) && step.Mark?
    ensures Inv(Apply(s, step))
  {
  }

  lemma InvStep(s: Server, step: Step)
    requires Inv(s) && Enabled(s, step)
    ensures Inv(Apply(s, step))
  {
    hide Inv;
    match step
    case Arrive(_) => ArriveKeeps(s, step);
    case Claim(_, _) => ClaimKeeps(s, step);
    case Process(_, _) => ProcessKeeps(s, step);
    case Mark(_, _) => MarkKeeps(s, step);
    case Die(_) => DieKeeps(s, step);
  }

  ghost predicate IsRun(states: seq<Server>, steps: seq<Step>)
  {
    && |states| == |steps| + 1 && states[0] == Server([], map[], multiset{})
    && forall k :: 0 <= k < |steps| ==> Enabled(states[k], steps[k]) && states[k + 1] == Apply(states[k], steps[k])
  }

  lemma {:induction false} RunInv(states: seq<Server>, steps: seq<Step>, k: nat)
    requires IsRun(states, steps) && k < |states|
    ensures Inv(states[k])
  {
    hide Inv;
    if k == 0 {
      StartInv();
    } else {
      RunInv(states, steps, k - 1);
      InvStep(states[k - 1], steps[k - 1]);
    }
  }

  lemma StartInv()
    ensures Inv(Server([], map[], multiset{}))
  {
  }

  /** However often a delivery is sent and however the requests interleave, it is processed at most
      once; a handler about to mark finds its claim; and a first 202 means it was processed
      once and marked. */
  lemma ProcessedAtMostOnce(states: seq<Server>, steps: seq<Step>, k: nat)
    requires IsRun(states, steps) && k < |states|
    ensures forall d :: states[k].runs[d] <= 1
    ensures forall i :: 0 <= i < |states[k].handlers| && states[k].handlers[i].Processed? ==>
              states[k].handlers[i].delivery in states[k].ledger
    ensures forall i :: 0 <= i < |states[k].handlers| && states[k].handlers[i].Accepted? && states[k].handlers[i].first ==>
              var d := states[k].handlers[i].delivery; states[k].runs[d] == 1 && d in states[k].ledger && states[k].ledger[d]
  {
    RunInv(states, steps, k);
    forall i | 0 <= i < |states[k].handlers| && states[k].handlers[i].Accepted? && states[k].handlers[i].first
      ensures states[k].handlers[i] == Accepted(states[k].handlers[i].delivery, true) {}
  }

  lemma AnswerOfStep(s: Server, step: Step, i: nat)
    requires Inv(s) && Enabled(s, step) && i < |Apply(s, step).handlers|
    ensures var h := Apply(s, step).handlers[i];
      || h.Verified? || h.Claimed? || h.Dead? || (h.Accepted? && !h.first) || (i < |s.handlers| && s.handlers[i] == h)
      || (h.Processed? && step == Process(i, h.failed))
      || (h.Accepted? && i < |s.handlers| && s.handlers[i].Processed? && !s.handlers[i].failed)
      || (h.Errored? && i < |s.handlers| && (step in {Claim(i, false), Mark(i, false)} || (s.handlers[i].Processed? && s.handlers[i].failed)))
  {
  }

  /** The answer tells what happened: 202 to the claiming request means that the processor succeeded,
      and 500 that claiming, processing or marking failed. */
  lemma {:induction false} AnswersAreTruthful(states: seq<Server>, steps: seq<Step>, k: nat, i: nat)
    requires IsRun(states, steps) && k < |states| && i < |states[k].handlers|
    ensures var h := states[k].handlers[i];
      && (h.Processed? ==> exists j: nat :: j < k && steps[j] == Process(i, h.failed))
      && (h.Accepted? && h.first ==> exists j: nat :: j < k && steps[j] == Process(i, false))
      && (h.Errored? ==> exists j: nat :: j < k && steps[j] in {Claim(i, false), Process(i, true), Mark(i, false)})
  {
    hide Inv, Apply;
    if k > 0 {
      var s, step := states[k - 1], steps[k - 1];
      if i < |s.handlers| { AnswersAreTruthful(states, steps, k - 1, i); }
      RunInv(states, steps, k - 1);
      AnswerOfStep(s, step, i);
    }
  }

  lemma NoLaterClaim(s: Server, step: Step, d: Delivery)
    requires Inv(s) && Enabled(s, step) && d in s.ledger
    requires forall i :: 0 <= i < |s.handlers| && s.handlers[i].delivery == d ==> !Holds(s.handlers[i])
    ensures var s' := Apply(s, step);
      && d in s'.ledger && s'.runs[d] == s.runs[d]
      && forall i :: 0 <= i < |s'.handlers| && s'.handlers[i].delivery == d ==> !Holds(s'.handlers[i])
  {
  }

  /** At most once is all: when the handler that claimed a delivery died before processing it,
      no redelivery is ever processed. */
  lemma {:induction false} AbandonedClaimIsFinal(states: seq<Server>, steps: seq<Step>, j: nat, k: nat, d: Delivery)
    requires IsRun(states, steps) && j <= k < |states|
    requires d in states[j].ledger
    requires forall i :: 0 <= i < |states[j].handlers| && states[j].handlers[i].delivery == d ==> !Holds(states[j].handlers[i])
    ensures d in states[k].ledger && states[k].runs[d] == states[j].runs[d]
    ensures forall i :: 0 <= i < |states[k].handlers| && states[k].handlers[i].delivery == d ==> !Holds(states[k].handlers[i])
    decreases k
  {
    hide Inv, Holds;
    if j < k {
      AbandonedClaimIsFinal(states, steps, j, k - 1, d);
      RunInv(states, steps, k - 1);
      NoLaterClaim(states[k - 1], steps[k - 1], d);
    }
  }
}

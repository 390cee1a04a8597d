/**
 Whether the context enforces access policies, learned from the outcomes of the
 access probe (src/client/access.rs:98-145, src/cluster/store.rs:94-100). The
 outcomes come out of a hash map, in any order.
 */
module AccessAudit {

  datatype AccessAuditState = Unknown | Unsupported | Supported

  datatype AxisOutcome = Direct | Inherited | NoPolicy | Forbidden | NotApplicable | Error(body: string)

  /** `observe_audit_state`; `disabled` says whether an error text reports that there is no authorizer. */
  function Observe(disabled: string -> bool, current: AccessAuditState, outcome: AxisOutcome): AccessAuditState {
    match outcome
    case Direct => Supported
    case Inherited => Supported
    case NoPolicy => Supported
    case Error(body) => if current == Unknown && disabled(body) then Unsupported else current
    case Forbidden => current
    case NotApplicable => current
  }

  /** The fold over the outcomes in the order they happen to come. */
  function Fold(disabled: string -> bool, current: AccessAuditState, outcomes: seq<AxisOutcome>): AccessAuditState
    decreases |outcomes|
  {
    if outcomes == [] then current else Fold(disabled, Observe(disabled, current, outcomes[0]), outcomes[1..])
  }

  /** What one outcome says by itself. */
  function Verdict(disabled: string -> bool, o: AxisOutcome): AccessAuditState {
    if o.Direct? || o.Inherited? || o.NoPolicy? then Supported
    else if o.Error? && disabled(o.body) then Unsupported
    else Unknown
  }

  /** Unknown < Unsupported < Supported. */
  function Rank(s: AccessAuditState): nat {
    match s
    case Unknown => 0
    case Unsupported => 1
    case Supported => 2
  }

  function Max(a: nat, b: nat): nat {
    if a >= b then a else b
  }

  ghost predicate IsMaximum(disabled: string -> bool, current: AccessAuditState, outcomes: seq<AxisOutcome>,
                            r: AccessAuditState)
  {
    && Rank(current) <= Rank(r)
    && (forall o :: o in outcomes ==> Rank(Verdict(disabled, o)) <= Rank(r))
    && (r == current || exists o :: o in outcomes && Verdict(disabled, o) == r)
  }

  /** The fold is the maximum of the start and every verdict. */
  lemma {:induction false} FoldIsMaximum(
    disabled: string -> bool, current: AccessAuditState, outcomes: seq<AxisOutcome>)
    ensures IsMaximum(disabled, current, outcomes, Fold(disabled, current, outcomes))
    decreases |outcomes|
  {
    if outcomes != [] {
      var first, rest := outcomes[0], outcomes[1..];
      FoldIsMaximum(disabled, Observe(disabled, current, first), rest);
      assert outcomes == [first] + rest;
      assert first in outcomes && forall o :: o in outcomes <==> o == first || o in rest;
      assert Rank(Observe(disabled, current, first)) == Max(Rank(current), Rank(Verdict(disabled, first)));
    }
  }

  /** Hence the order does not matter, nor does how often an outcome is repeated. */
  lemma FoldIgnoresOrder(
    disabled: string -> bool, current: AccessAuditState, xs: seq<AxisOutcome>, ys: seq<AxisOutcome>)
    requires forall o :: o in xs <==> o in ys
    ensures Fold(disabled, current, xs) == Fold(disabled, current, ys)
  {
    FoldIsMaximum(disabled, current, xs);
    FoldIsMaximum(disabled, current, ys);
  }

  /** What a probe concludes, case by case. */
  lemma FoldMeaning(disabled: string -> bool, current: AccessAuditState, xs: seq<AxisOutcome>)
    ensures Fold(disabled, current, xs) == Supported <==>
              current == Supported || exists o :: o in xs && (o.Direct? || o.Inherited? || o.NoPolicy?)
    ensures Fold(disabled, current, xs) == Unknown <==>
              current == Unknown
              && forall o :: o in xs ==> o.Forbidden? || o.NotApplicable? || (o.Error? && !disabled(o.body))
  {
    FoldIsMaximum(disabled, current, xs);
  }
}

/** Several workers starting at once: their reads, updates and bindings of one durable interleave. */
module Replicas {
  import opened Prelude
  import opened Consumer

  datatype Pc =
    | Start
    | Writing(current: Config)   // read this configuration, about to write the drift onto it
    | Binding
    | Bound
    | Failed

  /** All replicas run the same code: they declare the same fields for the same durable. */
  datatype Setting = Setting(declared: Config, durable: string, subject: string)

  /** The durable as the broker stores it, and the replicas. */
  datatype World = World(stored: Option<Config>, replicas: seq<Pc>)

  datatype Step = Step(replica: nat, fate: Fate)

  function Read(e: Setting, stored: Option<Config>, fate: Fate): Pc {
    if fate != Done || !Supported(e.declared) then Failed
    else if stored == None || Drift(stored.value, e.declared) == map[] then Binding
    else Writing(stored.value)
  }

  function Write(e: Setting, stored: Option<Config>, current: Config, fate: Fate): (Option<Config>, Pc) {
    var config := current + Drift(current, e.declared);
    if fate == Refused || (stored.Some? && !SameFixed(stored.value, config)) then (stored, Failed)
    else (Some(AsStored(config)), if fate == Done then Binding else Failed)
  }

  function Bind(e: Setting, stored: Option<Config>, fate: Fate): (Option<Config>, Pc) {
    if fate == Refused then (stored, Failed)
    else
      match stored
      case None => (Some(Created(e.declared, e.durable, e.subject)), if fate == Done then Bound else Failed)
      case Some(c) =>
        var mine := "deliver_group" in c && c["deliver_group"] == Text(e.durable);
        (stored, if fate == Done && mine then Bound else Failed)
  }

  function Act(e: Setting, stored: Option<Config>, pc: Pc, fate: Fate): (Option<Config>, Pc) {
    match pc
    case Start => (stored, Read(e, stored, fate))
    case Writing(current) => Write(e, stored, current, fate)
    case Binding => Bind(e, stored, fate)
    case _ => (stored, pc)
  }

  function Next(e: Setting, w: World, s: Step): World
    requires s.replica < |w.replicas|
  {
    var (stored, pc) := Act(e, w.stored, w.replicas[s.replica], s.fate);
    World(stored, w.replicas[s.replica := pc])
  }

  ghost predicate Allowed(w: World, run: seq<Step>) {
    forall i :: 0 <= i < |run| ==> run[i].replica < |w.replicas|
  }

  function After(e: Setting, w: World, run: seq<Step>): (r: World)
    requires Allowed(w, run)
    ensures |r.replicas| == |w.replicas|
    decreases |run|
  {
    if run == [] then w else After(e, Next(e, w, run[0]), run[1..])
  }

  /** The durable is missing, or is what some earlier build left. */
  ghost predicate Initial(w: World) {
    && (w.stored.Some? ==> SERVER_DEFAULTS.Keys <= w.stored.value.Keys)
    && forall j :: 0 <= j < |w.replicas| ==> w.replicas[j] == Start
  }

  /** What every replica is heading for. */
  function Goal(e: Setting, first: Option<Config>): Config {
    match first
    case None => Created(e.declared, e.durable, e.subject)
    case Some(c) => c + e.declared
  }

  ghost predicate ReplicaOk(e: Setting, first: Option<Config>, stored: Option<Config>, pc: Pc) {
    match pc
    case Start => true
    case Failed => true
    case Writing(current) => first == Some(current) && Supported(e.declared)
    case Binding => Supported(e.declared) && (stored == None || stored == Some(Goal(e, first)))
    case Bound => Supported(e.declared) && stored == Some(Goal(e, first))
  }

  /** The durable is as it was, or as it should be. */
  ghost predicate OnCourse(e: Setting, first: Option<Config>, w: World) {
    && (first.Some? ==> SERVER_DEFAULTS.Keys <= first.value.Keys && w.stored.Some?)
    && (w.stored == first || (w.stored == Some(Goal(e, first)) && Supported(e.declared)))
    && forall j :: 0 <= j < |w.replicas| ==> ReplicaOk(e, first, w.stored, w.replicas[j])
  }

  lemma GoalSpec(e: Setting, first: Option<Config>)
    requires Supported(e.declared)
    ensures Carries(Goal(e, first), e.declared)
    ensures first.Some? ==> SameFixed(first.value, Goal(e, first))
    ensures first.Some? && Drift(first.value, e.declared) == map[] ==> Goal(e, first) == first.value
    ensures Drift(Goal(e, first), e.declared) == map[]
    ensures first.Some? && SERVER_DEFAULTS.Keys <= first.value.Keys ==>
      AsStored(first.value + Drift(first.value, e.declared)) == Goal(e, first)
  {
    if first.Some? {
      EvolveSpec(first.value, e.declared);
      if SERVER_DEFAULTS.Keys <= first.value.Keys { StoredStays(first.value, e.declared); }
    }
    CreatedCarries(e.declared, e.durable, e.subject);
    EvolveSpec(Goal(e, first), e.declared);
  }

  lemma ActOnCourse(e: Setting, first: Option<Config>, stored: Option<Config>, pc: Pc, fate: Fate)
    requires first.Some? ==> SERVER_DEFAULTS.Keys <= first.value.Keys && stored.Some?
    requires stored == first || (stored == Some(Goal(e, first)) && Supported(e.declared))
    requires ReplicaOk(e, first, stored, pc)
    ensures ReplicaOk(e, first, Act(e, stored, pc, fate).0, Act(e, stored, pc, fate).1)
    ensures var after := Act(e, stored, pc, fate).0;
      after == stored || (after == Some(Goal(e, first)) && Supported(e.declared))
  {
    if Supported(e.declared) { GoalSpec(e, first); }
  }

  lemma NextOnCourse(e: Setting, first: Option<Config>, w: World, s: Step)
    requires OnCourse(e, first, w) && s.replica < |w.replicas|
    ensures OnCourse(e, first, Next(e, w, s))
    ensures w.stored == Some(Goal(e, first)) ==> Next(e, w, s).stored == w.stored
  {
    var pc := w.replicas[s.replica];
    assert ReplicaOk(e, first, w.stored, pc);
    ActOnCourse(e, first, w.stored, pc, s.fate);
  }

  lemma {:induction false} RunOnCourse(e: Setting, first: Option<Config>, w: World, run: seq<Step>)
    requires OnCourse(e, first, w) && Allowed(w, run)
    ensures OnCourse(e, first, After(e, w, run))
    ensures w.stored == Some(Goal(e, first)) ==> After(e, w, run).stored == w.stored
    decreases |run|
  {
    if run != [] {
      NextOnCourse(e, first, w, run[0]);
      RunOnCourse(e, first, Next(e, w, run[0]), run[1..]);
    }
  }

  /**
   Convergence: whatever the interleaving, refusals and lost replies, as soon as one replica is bound the durable
   carries every declared field and keeps all else, and no later step of any replica changes it.
   */
  lemma ReplicasConverge(e: Setting, init: World, run: seq<Step>, later: seq<Step>, j: nat)
    requires Initial(init) && Allowed(init, run) && Allowed(init, later)
    requires j < |init.replicas| && After(e, init, run).replicas[j] == Bound
    ensures After(e, init, run).stored.Some? && Carries(After(e, init, run).stored.value, e.declared)
    ensures init.stored.Some? ==>
      After(e, init, run).stored.value == init.stored.value + e.declared
      && SameFixed(init.stored.value, After(e, init, run).stored.value)
    ensures After(e, After(e, init, run), later).stored == After(e, init, run).stored
  {
    RunOnCourse(e, init.stored, init, run);
    var w := After(e, init, run);
    assert ReplicaOk(e, init.stored, w.stored, w.replicas[j]);
    GoalSpec(e, init.stored);
    RunOnCourse(e, init.stored, w, later);
  }

  /** A call the broker refuses changes nothing and fails the replica that made it. */
  lemma RefusalChangesNothing(e: Setting, w: World, s: Step)
    requires s.replica < |w.replicas| && s.fate == Refused
    requires w.replicas[s.replica] != Bound && w.replicas[s.replica] != Failed
    ensures Next(e, w, s) == World(w.stored, w.replicas[s.replica := Failed])
  {
  }

  /** Calls a replica still has to make. */
  function CallsLeft(pc: Pc): nat {
    match pc
    case Start => 3
    case Writing(_) => 2
    case Binding => 1
    case _ => 0
  }

  /** The durable's delivery group, if there is a durable, is the one the replicas ask for. */
  ghost predicate GroupFits(e: Setting, first: Option<Config>) {
    first.Some? ==> "deliver_group" in first.value && first.value["deliver_group"] == Text(e.durable)
  }

  /** Without refusals and lost replies, each call brings a replica closer to being bound, whatever the others do. */
  lemma CallSucceeds(e: Setting, first: Option<Config>, w: World, s: Step)
    requires OnCourse(e, first, w) && s.replica < |w.replicas| && s.fate == Done && Supported(e.declared)
    requires GroupFits(e, first) && CallsLeft(w.replicas[s.replica]) > 0
    ensures Next(e, w, s).replicas[s.replica] != Failed
    ensures CallsLeft(Next(e, w, s).replicas[s.replica]) < CallsLeft(w.replicas[s.replica])
  {
    GoalSpec(e, first);
    assert ReplicaOk(e, first, w.stored, w.replicas[s.replica]);
    assert "deliver_group" !in RECONCILED;
  }

  /** A durable of another group binds nobody. */
  lemma NeverBound(e: Setting, first: Option<Config>, w: World, s: Step)
    requires OnCourse(e, first, w) && s.replica < |w.replicas| && w.replicas[s.replica] != Bound
    requires !GroupFits(e, first)
    ensures Next(e, w, s).replicas[s.replica] != Bound
  {
    assert ReplicaOk(e, first, w.stored, w.replicas[s.replica]);
    assert "deliver_group" !in RECONCILED;
  }

  /** How many calls replica `j` makes. */
  function CallsOf(run: seq<Step>, j: nat): nat {
    if run == [] then 0 else (if run[0].replica == j then 1 else 0) + CallsOf(run[1..], j)
  }

  predicate Faultless(run: seq<Step>) {
    forall i :: 0 <= i < |run| ==> run[i].fate == Done
  }

  lemma {:induction false} CallsSucceed(e: Setting, first: Option<Config>, w: World, run: seq<Step>, j: nat)
    requires OnCourse(e, first, w) && Allowed(w, run) && Faultless(run) && j < |w.replicas| && w.replicas[j] != Failed
    requires Supported(e.declared) && GroupFits(e, first)
    ensures var pc := After(e, w, run).replicas[j];
      pc != Failed && (pc == Bound || CallsLeft(pc) + CallsOf(run, j) <= CallsLeft(w.replicas[j]))
    decreases |run|
  {
    if run != [] {
      NextOnCourse(e, first, w, run[0]);
      if run[0].replica == j && CallsLeft(w.replicas[j]) > 0 {
        CallSucceeds(e, first, w, run[0]);
      }
      CallsSucceed(e, first, Next(e, w, run[0]), run[1..], j);
    }
  }

  lemma {:induction false} NobodyBound(e: Setting, first: Option<Config>, w: World, run: seq<Step>, j: nat)
    requires OnCourse(e, first, w) && Allowed(w, run) && j < |w.replicas| && w.replicas[j] != Bound
    requires !GroupFits(e, first)
    ensures After(e, w, run).replicas[j] != Bound
    decreases |run|
  {
    if run != [] {
      NextOnCourse(e, first, w, run[0]);
      if run[0].replica == j { NeverBound(e, first, w, run[0]); }
      NobodyBound(e, first, Next(e, w, run[0]), run[1..], j);
    }
  }

  /**
   In every execution without refusals and lost replies, whatever the other replicas do: a replica that has made its
   three calls is bound if and only if its declared fields are supported and an existing durable has its group.
   */
  lemma NoFaultNoFailure(e: Setting, init: World, run: seq<Step>, j: nat)
    requires Initial(init) && Allowed(init, run) && Faultless(run) && j < |init.replicas| && CallsOf(run, j) >= 3
    ensures After(e, init, run).replicas[j] == Bound <==> Supported(e.declared) && GroupFits(e, init.stored)
  {
    assert OnCourse(e, init.stored, init);
    RunOnCourse(e, init.stored, init, run);
    if Supported(e.declared) && GroupFits(e, init.stored) {
      CallsSucceed(e, init.stored, init, run, j);
    } else if !GroupFits(e, init.stored) {
      NobodyBound(e, init.stored, init, run, j);
    } else {
      assert ReplicaOk(e, init.stored, After(e, init, run).stored, After(e, init, run).replicas[j]);
    }
  }
}

/**
 Reconciling a durable consumer with the code, so that the redelivery bound declared in code is the one the
 broker enforces. Broker semantics: binding to an existing durable drops the given configuration, fixed fields
 cannot change, and unset fields get server defaults.
 */
module Consumer {
  import opened Prelude
  import Delivery

  datatype Value = Number(n: int) | Text(s: string)

  /** The fields of a consumer configuration that differ from their defaults. */
  type Config = map<string, Value>

  const RECONCILED: set<string> := {"ack_wait", "max_deliver", "max_ack_pending", "backoff"}
  const FIXED: set<string> := {"deliver_subject", "deliver_group", "filter_subject", "deliver_policy", "ack_policy"}
  const SERVER_DEFAULTS: Config :=
    map["ack_wait" := Number(30), "max_deliver" := Number(-1), "max_ack_pending" := Number(1000)]

  /** What the broker stores: server defaults under what was set. */
  function AsStored(c: Config): Config {
    SERVER_DEFAULTS + c
  }

  /** Every field of `want` has its value in `c`. */
  predicate Carries(c: Config, want: Config) {
    forall f :: f in want ==> f in c && c[f] == want[f]
  }

  /** The declared fields that the stored configuration lacks or contradicts. */
  function Drift(current: Config, declared: Config): Config {
    map f | f in declared && !(f in current && current[f] == declared[f]) :: declared[f]
  }

  predicate SameFixed(c: Config, d: Config) {
    forall f :: f in FIXED ==> (f in c <==> f in d) && (f in c ==> c[f] == d[f])
  }

  /** A consumer's subject, group, filter and policies cannot change. */
  lemma FixedFields(c: Config, d: Config, f: string)
    requires SameFixed(c, d)
    requires f in {"deliver_subject", "deliver_group", "filter_subject", "deliver_policy", "ack_policy"}
    ensures (f in c <==> f in d) && (f in c ==> c[f] == d[f])
  {
  }

  predicate Supported(c: Config) {
    c.Keys <= RECONCILED
  }

  /** What `subscribe` creates when the durable is missing. */
  function Created(config: Config, durable: string, subject: string): Config {
    AsStored(config["durable_name" := Text(durable)]["deliver_group" := Text(durable)]
                   ["deliver_subject" := Text("_INBOX." + durable)]["filter_subject" := Text(subject)])
  }

  /** A durable created by a worker: it carries its name, its queue group of the same name, and its subject. */
  ghost predicate IsNew(c: Config, durable: string, subject: string) {
    && "durable_name" in c && c["durable_name"] == Text(durable)
    && "deliver_group" in c && c["deliver_group"] == Text(durable)
    && "filter_subject" in c && c["filter_subject"] == Text(subject)
    && "deliver_subject" in c && c["deliver_subject"] == Text("_INBOX." + durable)
  }

  /** The queue group of the durable, if there is one, is the one a worker asks for. */
  ghost predicate GroupFits(consumers: map<(string, string), Config>, key: (string, string)) {
    key in consumers ==> "deliver_group" in consumers[key] && consumers[key]["deliver_group"] == Text(key.1)
  }

  /** What a start needs: supported settings, a readable configuration, the right group, and every call of it done. */
  ghost predicate Starts(consumers: map<(string, string), Config>, key: (string, string), declared: Config,
                         readable: bool, update: Fate, bind: Fate) {
    && declared.Keys <= {"ack_wait", "max_deliver", "max_ack_pending", "backoff"} && readable && bind == Done
    && GroupFits(consumers, key) && (key in consumers ==> Carries(consumers[key], declared) || update == Done)
  }

  /** Writing the drift onto the stored configuration declares everything and touches nothing else. */
  lemma EvolveSpec(current: Config, declared: Config)
    ensures current + Drift(current, declared) == current + declared
    ensures Carries(current + declared, declared)
    ensures Drift(current, declared) == map[] <==> Carries(current, declared)
    ensures Carries(current, declared) ==> current + declared == current
    ensures Supported(declared) ==> SameFixed(current, current + declared)
  {
    assert forall f :: f in declared && f !in Drift(current, declared) ==> f in current && current[f] == declared[f];
    if Carries(current, declared) {
      assert Drift(current, declared).Keys == {};
    } else {
      var f :| f in declared && !(f in current && current[f] == declared[f]);
      assert f in Drift(current, declared);
    }
  }

  lemma StoredStays(c: Config, d: Config)
    requires SERVER_DEFAULTS.Keys <= c.Keys
    ensures AsStored(c + d) == c + d
  {
  }

  lemma CreatedCarries(config: Config, durable: string, subject: string)
    requires Supported(config)
    ensures Carries(Created(config, durable, subject), config)
    ensures IsNew(Created(config, durable, subject), durable, subject)
  {
  }

  // ---- one process ----------------------------------------------------------

  /** How a broker call ends: done, refused, or done with the reply lost. */
  datatype Fate = Done | Refused | Lost

  datatype Outcome = Subscribed | Unsupported | NoStream | NotUpdated | BrokerError

  class JetStream {
    var consumers: map<(string, string), Config>
    var subscriptions: seq<(string, string)>
    var updates: nat

    /** Stored configurations are complete and filed under their own name. */
    ghost predicate Valid()
      reads this
    {
      forall k :: k in consumers ==>
        SERVER_DEFAULTS.Keys <= consumers[k].Keys
        && "durable_name" in consumers[k] && consumers[k]["durable_name"] == Text(k.1)
    }

    constructor ()
      ensures Valid() && consumers == map[] && subscriptions == [] && updates == 0
    {
      consumers, subscriptions, updates := map[], [], 0;
    }

    /** Create or update; a change to a fixed field is refused. */
    method AddConsumer(stream: string, config: Config, fate: Fate) returns (ok: bool)
      requires Valid() && "durable_name" in config && config["durable_name"].Text?
      modifies `consumers, `updates
      ensures Valid() && updates == old(updates) + 1
      ensures var key := (stream, config["durable_name"].s);
        var accepted := fate != Refused && (key in old(consumers) ==> SameFixed(old(consumers)[key], config));
        && consumers == (if accepted then old(consumers)[key := AsStored(config)] else old(consumers))
        && (ok <==> accepted && fate == Done)
    {
      var key := (stream, config["durable_name"].s);
      updates := updates + 1;
      ok := fate == Done;
      if fate == Refused || (key in consumers && !SameFixed(consumers[key], config)) {
        return false;
      }
      consumers := consumers[key := AsStored(config)];
    }

    /** Binds to an existing durable of the same group, dropping `config`; creates a missing one from it. */
    method Subscribe(stream: string, subject: string, durable: string, config: Config, fate: Fate) returns (ok: bool)
      requires Valid()
      modifies `consumers, `subscriptions
      ensures Valid()
      ensures var key := (stream, durable);
        var bound := key in old(consumers);
        var right := bound ==>
          "deliver_group" in old(consumers)[key] && old(consumers)[key]["deliver_group"] == Text(durable);
        && consumers == (if bound || fate == Refused then old(consumers)
                         else old(consumers)[key := Created(config, durable, subject)])
        && (ok <==> right && fate == Done)
        && subscriptions == (if ok then old(subscriptions) + [key] else old(subscriptions))
    {
      var key := (stream, durable);
      ok := fate == Done;
      if fate == Refused { return; }
      if key in consumers {
        if !("deliver_group" in consumers[key] && consumers[key]["deliver_group"] == Text(durable)) {
          return false;
        }
      } else {
        consumers := consumers[key := Created(config, durable, subject)];
      }
      if ok {
        subscriptions := subscriptions + [key];
      }
    }
  }

  /** `ensure_consumer_config`; `readable` says whether the stored configuration can be read. */
  method EnsureConsumerConfig(js: JetStream, stream: string, durable: string, declared: Config,
                              readable: bool, fate: Fate)
    returns (failure: Option<Outcome>)
    requires js.Valid()
    modifies js`consumers, js`updates
    ensures js.Valid()
    ensures var key := (stream, durable);
      var before := old(js.consumers);
      && (failure == Some(Unsupported) <==> !Supported(declared))
      && (failure == None || failure == Some(Unsupported)
          || failure == Some(NotUpdated) || failure == Some(BrokerError))
      && (key !in before || failure == Some(Unsupported) || Carries(before[key], declared) ==> js.consumers == before)
      && (key in before ==> js.consumers == before || js.consumers == before[key := before[key] + declared])
      && (key in before && failure == None ==> js.consumers == before[key := before[key] + declared])
      && (!Supported(declared) || key !in before || Carries(before[key], declared) ==> js.updates == old(js.updates))
      && js.updates <= old(js.updates) + 1
      && (failure == Some(NotUpdated) ==> fate != Done)
      && (failure == None <==>
            Supported(declared) && readable && (key in before ==> Carries(before[key], declared) || fate == Done))
      && (failure == Some(BrokerError) ==> !readable)
  {
    if !Supported(declared) { return Some(Unsupported); }
    if !readable { return Some(BrokerError); }
    var key := (stream, durable);
    if key !in js.consumers { return None; }
    var current := js.consumers[key];
    var drift := Drift(current, declared);
    EvolveSpec(current, declared);
    StoredStays(current, declared);
    if drift == map[] {
      assert js.consumers == js.consumers[key := current];
      return None;
    }
    var ok := js.AddConsumer(stream, current + drift, fate);
    failure := if ok then None else Some(NotUpdated);
  }

  /** The configuration a successful subscription leaves. */
  function Settled(before: map<(string, string), Config>, key: (string, string),
                   declared: Config, subject: string): Config {
    if key in before then before[key] + declared else Created(declared, key.1, subject)
  }

  lemma SettledSpec(before: map<(string, string), Config>, key: (string, string), declared: Config, subject: string)
    requires Supported(declared)
    ensures Carries(Settled(before, key, declared, subject), declared)
    ensures key in before ==> Carries(before[key], declared) ==> Settled(before, key, declared, subject) == before[key]
    ensures key in before ==>
      forall f :: f !in declared ==>
        (f in Settled(before, key, declared, subject) <==> f in before[key])
        && (f in before[key] ==> Settled(before, key, declared, subject)[f] == before[key][f])
    ensures key in before ==> SameFixed(before[key], Settled(before, key, declared, subject))
    ensures key !in before ==> IsNew(Settled(before, key, declared, subject), key.1, subject)
  {
    if key in before { EvolveSpec(before[key], declared); }
    CreatedCarries(declared, key.1, subject);
  }

  /** Reconciles, then binds or creates, on a known stream. */
  method BindDurable(js: JetStream, stream: string, subject: string, durable: string, declared: Config,
                     readable: bool, update: Fate, bind: Fate)
    returns (outcome: Outcome)
    requires js.Valid()
    modifies js
    ensures js.Valid()
    ensures outcome == Subscribed <==> Starts(old(js.consumers), (stream, durable), declared, readable, update, bind)
    ensures outcome == Unsupported <==> !Supported(declared)
    ensures outcome == Unsupported ==> js.consumers == old(js.consumers)
    ensures outcome != Subscribed ==> js.subscriptions == old(js.subscriptions)
    ensures (stream, durable) in old(js.consumers) && Carries(old(js.consumers)[(stream, durable)], declared) ==>
      js.consumers == old(js.consumers)
    ensures outcome == Subscribed ==>
      && js.subscriptions == old(js.subscriptions) + [(stream, durable)]
      && js.consumers == old(js.consumers)[(stream, durable) :=
           Settled(old(js.consumers), (stream, durable), declared, subject)]
    ensures js.updates <= old(js.updates) + 1
    ensures (stream, durable) !in old(js.consumers) || Carries(old(js.consumers)[(stream, durable)], declared) ==>
      js.updates == old(js.updates)
  {
    var failure := EnsureConsumerConfig(js, stream, durable, declared, readable, update);
    assert Supported(declared) ==> "deliver_group" !in declared;
    if failure != None { return failure.value; }
    var ok := js.Subscribe(stream, subject, durable, declared, bind);
    outcome := if ok then Subscribed else BrokerError;
  }

  /**
   `subscribe_durable`. On success every declared field has the code's value; on an existing durable everything
   else, fixed fields included, keeps the broker's. On failure there is no subscription.
   */
  method SubscribeDurable(js: JetStream, stream: Option<string>, streamOf: string -> Option<string>, subject: string,
                          durable: string, declared: Config, readable: bool, update: Fate, bind: Fate)
    returns (outcome: Outcome)
    requires js.Valid()
    modifies js
    ensures js.Valid()
    // only these four settings can be reconciled, and anything else is refused before the broker is touched
    ensures !(declared.Keys <= {"ack_wait", "max_deliver", "max_ack_pending", "backoff"}) ==>
      outcome in {Unsupported, NoStream} && js.consumers == old(js.consumers)
    ensures outcome == Unsupported ==> !(declared.Keys <= {"ack_wait", "max_deliver", "max_ack_pending", "backoff"})
    ensures var found := if stream.Some? then stream else streamOf(subject);
      outcome == Subscribed <==>
        found.Some? && Starts(old(js.consumers), (found.value, durable), declared, readable, update, bind)
    ensures outcome != Subscribed ==> js.subscriptions == old(js.subscriptions)
    ensures outcome == Subscribed ==>
      var found := if stream.Some? then stream else streamOf(subject);
      && found.Some?
      && var key := (found.value, durable);
      && js.subscriptions == old(js.subscriptions) + [key]
      && key in js.consumers && Carries(js.consumers[key], declared)
      && (key in old(js.consumers) ==>
            SameFixed(old(js.consumers)[key], js.consumers[key])
            && forall f :: f in old(js.consumers)[key] && f !in declared ==>
                 f in js.consumers[key] && js.consumers[key][f] == old(js.consumers)[key][f])
      && (key !in old(js.consumers) ==> IsNew(js.consumers[key], durable, subject))
      && forall k :: k != key ==> (k in js.consumers <==> k in old(js.consumers))
                                  && (k in js.consumers ==> js.consumers[k] == old(js.consumers)[k])
  {
    var found := stream;
    if found == None {
      found := streamOf(subject);
      if found == None { return NoStream; }
    }
    outcome := BindDurable(js, found.value, subject, durable, declared, readable, update, bind);
    if outcome == Subscribed {
      SettledSpec(old(js.consumers), (found.value, durable), declared, subject);
    }
  }

  /** A second start with the same settings makes no update: the first left nothing to reconcile. */
  method SubscribeTwice(js: JetStream, stream: string, subject: string, durable: string, declared: Config,
                        update: Fate, bind: Fate, update2: Fate, bind2: Fate)
    returns (first: Outcome, second: Outcome, writes: int)
    requires js.Valid()
    modifies js
    ensures js.updates <= old(js.updates) + 1 + writes
    ensures first == Subscribed <==> Starts(old(js.consumers), (stream, durable), declared, true, update, bind)
    ensures first == Subscribed ==> (second == Subscribed <==> bind2 == Done)
    ensures first == Subscribed ==>
      writes == 0
      && (stream, durable) in js.consumers && Carries(js.consumers[(stream, durable)], declared)
      && (second == Subscribed ==> js.subscriptions == old(js.subscriptions) + [(stream, durable), (stream, durable)])
  {
    first := BindDurable(js, stream, subject, durable, declared, true, update, bind);
    if first == Subscribed {
      SettledSpec(old(js.consumers), (stream, durable), declared, subject);
    }
    var before := js.updates;
    second := BindDurable(js, stream, subject, durable, declared, true, update2, bind2);
    writes := js.updates - before;
  }

  // ---- the request subscription ---------------------------------------------

  /** What the worker declares for its durable. */
  function WorkerConfig(ackWait: int, maxDeliver: nat, maxAckPending: Option<int>): Config {
    var base: Config := map["ack_wait" := Number(ackWait), "max_deliver" := Number(Delivery.Backstop(maxDeliver))];
    if maxAckPending.Some? then base["max_ack_pending" := Number(maxAckPending.value)] else base
  }

  /** Whatever the durable held before, the worker's start makes the delivery model's bound, one above the handler's
      own, the broker's, with the worker's ack wait and its limit of unacknowledged messages. */
  method SubscribeWorker(js: JetStream, stream: string, subject: string, durable: string, ackWait: int,
                         maxDeliver: nat, maxAckPending: Option<int>, readable: bool, update: Fate, bind: Fate)
    returns (outcome: Outcome)
    requires js.Valid()
    modifies js
    ensures outcome != Unsupported
    ensures outcome == Subscribed <==>
      var declared := WorkerConfig(ackWait, maxDeliver, maxAckPending);
      Starts(old(js.consumers), (stream, durable), declared, readable, update, bind)
    ensures outcome == Subscribed ==>
      && (stream, durable) in js.consumers
      && var stored := js.consumers[(stream, durable)];
      && "max_deliver" in stored && stored["max_deliver"] == Number(maxDeliver + 1)
      && Delivery.Backstop(maxDeliver) == maxDeliver + 1
      && "ack_wait" in stored && stored["ack_wait"] == Number(ackWait)
      && (maxAckPending.Some? ==>
            "max_ack_pending" in stored && stored["max_ack_pending"] == Number(maxAckPending.value))
      && (maxAckPending.None? && (stream, durable) in old(js.consumers) ==>
            var before := old(js.consumers)[(stream, durable)];
            "max_ack_pending" in before ==>
              "max_ack_pending" in stored && stored["max_ack_pending"] == before["max_ack_pending"])
  {
    var declared := WorkerConfig(ackWait, maxDeliver, maxAckPending);
    assert Supported(declared);
    outcome := BindDurable(js, stream, subject, durable, declared, readable, update, bind);
    if outcome == Subscribed {
      SettledSpec(old(js.consumers), (stream, durable), declared, subject);
    }
  }
}

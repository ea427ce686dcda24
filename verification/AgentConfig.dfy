/**
 Versioned agent configuration: administrators save concurrently with a compare-and-swap loop, and a
 running agent takes over the configurations that acknowledgements bring it, in whatever order.
 */
module AgentConfig {
  import opened Basics

  /** A configuration; `settings` stands for the fields that are only passed along. */
  datatype Config = Config(version: int, collectInterval: int, settings: string)

  const ATTEMPTS: nat := 5

  // ----- one save loop, with the others' saves in between

  /** How many saves others complete during the first `n` attempts. */
  function Overtaking(meanwhile: nat -> seq<Config>, n: nat): nat {
    if n == 0 then 0 else Overtaking(meanwhile, n - 1) + |meanwhile(n - 1)|
  }

  /** The first attempt that nobody overtakes. */
  predicate FirstFree(meanwhile: nat -> seq<Config>, k: nat) {
    meanwhile(k) == [] && forall j: nat :: j < k ==> meanwhile(j) != []
  }

  class ConfigStore {
    var version: int
    var config: Config

    constructor (config: Config)
      ensures this.config == config && version == config.version
    {
      this.config, version := config, config.version;
    }

    method CompareAndSwap(expected: int, next: Config) returns (rows: nat)
      modifies this
      ensures rows == if old(version) == expected then 1 else 0
      ensures rows == 1 ==> version == next.version && config == next
      ensures rows == 0 ==> version == old(version) && config == old(config)
    {
      if version == expected {
        version, config := next.version, next;
        rows := 1;
      } else {
        rows := 0;
      }
    }

    /** Saves of other administrators, each of which advances the version by one. */
    method OthersSave(configs: seq<Config>)
      modifies this
      ensures version == old(version) + |configs|
    {
      for i := 0 to |configs|
        invariant version == old(version) + i
      {
        version := version + 1;
        config := configs[i].(version := version);
      }
    }

    /**
     The save loop; `meanwhile(k)` are the saves that others complete between its k-th read and
     update. It succeeds exactly when one of its five attempts is not overtaken.
     */
    method Save(cfg: Config, meanwhile: nat -> seq<Config>) returns (saved: Option<int>)
      modifies this
      ensures saved.Some? <==> exists k: nat :: k < 5 && meanwhile(k) == []
      ensures saved.Some? ==> config == cfg.(version := saved.value) && version == saved.value
      ensures saved.Some? ==>
                exists k: nat :: k < 5 && FirstFree(meanwhile, k)
                    && saved.value == old(version) + Overtaking(meanwhile, k) + 1
      ensures saved.None? ==> version == old(version) + Overtaking(meanwhile, 5) && version >= old(version) + 5
    {
      for attempt := 0 to 5
        invariant forall k: nat :: k < attempt ==> meanwhile(k) != []
        invariant version == old(version) + Overtaking(meanwhile, attempt) && version >= old(version) + attempt
      {
        var current := version;
        OthersSave(meanwhile(attempt));
        var rows := CompareAndSwap(current, cfg.(version := current + 1));
        if rows == 1 {
          assert FirstFree(meanwhile, attempt);
          return Some(current + 1);
        }
      }
      saved := None;
    }
  }

  /** An acknowledgement is taken over if it carries a real configuration that is not older. */
  function Acknowledged(running: Config, ack: Config): Config {
    if ack.collectInterval > 0 && ack.version >= running.version then ack else running
  }

  class Runtime {
    var agent: Config

    constructor (agent: Config)
      ensures this.agent == agent
    {
      this.agent := agent;
    }

    method ApplyAck(ack: Config)
      modifies this
      ensures agent == Acknowledged(old(agent), ack)
    {
      if ack.collectInterval > 0 && ack.version >= agent.version {
        agent := ack;
      }
    }
  }

  // ----- any number of save loops, any order of acknowledgements

  /** A save loop between its statements; `begin` is the stored version when it started. */
  datatype Client =
    | Reading(cfg: Config, attempt: nat, begin: int)
    | Updating(cfg: Config, attempt: nat, begin: int, current: int)
    | Succeeded(version: int)
    | GaveUp(begin: int)

  /**
   The stored row, the save loops, the acknowledgements under way, the agent, and what was ever
   stored: `stored[v]` is the configuration saved as version v, `successes` the versions in order.
   */
  datatype State = State(
    row: Config, version: int, clients: map<nat, Client>, acks: set<Config>, agent: Config,
    stored: map<int, Config>, successes: seq<int>)

  function Start(config: Config): State {
    State(config, config.version, map[], {}, config, map[config.version := config], [])
  }

  datatype Event =
    | Begin(client: nat, cfg: Config)
    | Read(client: nat)
    | Update(client: nat)
    | Send
    | Deliver(ack: Config)

  predicate Enabled(s: State, e: Event) {
    match e
    case Begin(c, _) => c !in s.clients
    case Read(c) => c in s.clients && s.clients[c].Reading?
    case Update(c) => c in s.clients && s.clients[c].Updating?
    case Send => true
    case Deliver(ack) => ack in s.acks
  }

  function UpdateRow(s: State, c: nat): State
    requires c in s.clients && s.clients[c].Updating?
  {
    var client := s.clients[c];
    if s.version == client.current then
      var saved := client.cfg.(version := client.current + 1);
      s.(row := saved, version := saved.version, stored := s.stored[saved.version := saved],
         successes := s.successes + [saved.version], clients := s.clients[c := Succeeded(saved.version)])
    else
      var next := client.attempt + 1;
      var after := if next < ATTEMPTS then Reading(client.cfg, next, client.begin) else GaveUp(client.begin);
      s.(clients := s.clients[c := after])
  }

  function Apply(s: State, e: Event): State
    requires Enabled(s, e)
  {
    match e
    case Begin(c, cfg) => s.(clients := s.clients[c := Reading(cfg, 0, s.version)])
    case Read(c) =>
      var client := s.clients[c];
      s.(clients := s.clients[c := Updating(client.cfg, client.attempt, client.begin, s.version)])
    case Update(c) => UpdateRow(s, c)
    case Send => s.(acks := s.acks + {s.row})
    case Deliver(ack) => s.(agent := Acknowledged(s.agent, ack))
  }

  ghost predicate IsRun(run: seq<State>, events: seq<Event>, config: Config) {
    && |run| == |events| + 1 && run[0] == Start(config)
    && forall i :: 0 <= i < |events| ==> Enabled(run[i], events[i]) && run[i + 1] == Apply(run[i], events[i])
  }

  /** A configuration is the one that was stored under its version. */
  predicate Genuine(s: State, c: Config) { c.version in s.stored && s.stored[c.version] == c }

  /** Every lost attempt of a loop was overtaken by a success since the loop began. */
  predicate Overtaken(client: Client, version: int) {
    match client
    case Reading(_, attempt, begin) => begin + attempt <= version
    case Updating(_, attempt, begin, current) => begin + attempt <= current <= version
    case Succeeded(v) => v <= version
    case GaveUp(begin) => begin + ATTEMPTS <= version
  }

  ghost predicate Sound(s: State, first: int) {
    && s.version == s.row.version && Genuine(s, s.row)
    && (forall v :: v in s.stored ==> first <= v <= s.version)
    && (forall a :: a in s.acks ==> Genuine(s, a))
    && Genuine(s, s.agent)
    && (forall c :: c in s.clients ==> Overtaken(s.clients[c], s.version))
    && s.version == first + |s.successes|
    && (forall k :: 0 <= k < |s.successes| ==> s.successes[k] == first + k + 1)
  }

  lemma StepKeepsSound(s: State, e: Event, first: int)
    requires Sound(s, first) && Enabled(s, e)
    ensures Sound(Apply(s, e), first)
  {}

  lemma {:induction false} RunStaysSound(run: seq<State>, events: seq<Event>, config: Config, i: nat)
    requires IsRun(run, events, config) && i < |run|
    ensures Sound(run[i], config.version)
  {
    hide Apply;
    if i > 0 {
      RunStaysSound(run, events, config, i - 1);
      StepKeepsSound(run[i - 1], events[i - 1], config.version);
    }
  }

  /** Successful saves number the versions consecutively: each adds one, and none is used twice. */
  lemma SuccessesNumberVersions(run: seq<State>, events: seq<Event>, config: Config, i: nat)
    requires IsRun(run, events, config) && i < |run|
    ensures run[i].version == config.version + |run[i].successes|
    ensures forall j, k :: 0 <= j < k < |run[i].successes| ==> run[i].successes[j] < run[i].successes[k]
    ensures i < |events| && events[i].Update? ==>
              if run[i + 1].clients[events[i].client].Succeeded? then run[i + 1].version == run[i].version + 1
              else run[i + 1].row == run[i].row && run[i + 1].version == run[i].version
  {
    RunStaysSound(run, events, config, i);
  }

  /** A loop that gives up was overtaken by at least five saves while it ran. */
  lemma GivingUpMeansFiveOthers(run: seq<State>, events: seq<Event>, config: Config, i: nat, c: nat)
    requires IsRun(run, events, config) && i < |run|
    requires c in run[i].clients && run[i].clients[c].GaveUp?
    ensures run[i].version - run[i].clients[c].begin >= 5
  {
    RunStaysSound(run, events, config, i);
    assert Overtaken(run[i].clients[c], run[i].version);
  }

  lemma {:induction false} StoredIsWriteOnce(
    run: seq<State>, events: seq<Event>, config: Config, i: nat, j: nat, v: int)
    requires IsRun(run, events, config) && i <= j < |run| && v in run[i].stored
    ensures v in run[j].stored && run[j].stored[v] == run[i].stored[v]
    decreases j - i
  {
    if i < j {
      StoredIsWriteOnce(run, events, config, i, j - 1, v);
      RunStaysSound(run, events, config, j - 1);
    }
  }

  /**
   Whatever order acknowledgements arrive in, the agent's version never goes back, and its
   configuration is always the one that was stored under that version.
   */
  lemma {:induction false} AgentFollowsStored(run: seq<State>, events: seq<Event>, config: Config, i: nat, j: nat)
    requires IsRun(run, events, config) && i <= j < |run|
    ensures run[i].agent.version <= run[j].agent.version
    ensures Genuine(run[j], run[j].agent)
    decreases j - i
  {
    RunStaysSound(run, events, config, j);
    if i < j {
      AgentFollowsStored(run, events, config, i, j - 1);
    }
  }

  /** An agent takes over a real configuration that is as new as its own or newer, and keeps its own otherwise. */
  lemma AckTakenOverExactlyWhen(running: Config, ack: Config)
    ensures ack.collectInterval > 0 && running.version <= ack.version ==> Acknowledged(running, ack) == ack
    ensures ack.collectInterval <= 0 || ack.version < running.version ==> Acknowledged(running, ack) == running
  {}

  /**
   Once an acknowledgement of the present row is delivered, the agent runs that row and nothing older
   brings it back.
   */
  lemma {:induction false} AgentCatchesUp(run: seq<State>, events: seq<Event>, config: Config, i: nat, j: nat)
    requires IsRun(run, events, config) && i < j < |run| && events[i] == Deliver(run[i].row)
             && run[i].row.collectInterval > 0
    ensures run[i + 1].agent == run[i].row
    ensures run[j].agent.version >= run[i].row.version
    ensures run[j].version == run[i].version ==> run[j].agent == run[i].row
  {
    RunStaysSound(run, events, config, i);
    RunStaysSound(run, events, config, j);
    AgentFollowsStored(run, events, config, i + 1, j);
    StoredIsWriteOnce(run, events, config, i, j, run[i].row.version);
  }

  /** The row changes only by a save whose read was not overtaken, and then to that save's configuration. */
  lemma RowChangesBySave(run: seq<State>, events: seq<Event>, config: Config, i: nat)
    requires IsRun(run, events, config) && i < |events| && run[i + 1].row != run[i].row
    ensures events[i].Update? && var client := run[i].clients[events[i].client];
            && client.Updating? && client.current == run[i].version
            && run[i + 1].row == client.cfg.(version := run[i].version + 1)
  {}

  /** A save that reads and updates undisturbed succeeds at its first attempt. */
  lemma UndisturbedSaveSucceeds(s: State, c: nat, cfg: Config)
    requires c !in s.clients
    ensures var s1 := Apply(s, Begin(c, cfg));
            var s2 := Apply(s1, Read(c));
            var s3 := Apply(s2, Update(c));
            && s3.row == cfg.(version := s.version + 1) && s3.version == s.version + 1
            && s3.clients[c] == Succeeded(s.version + 1) && s3.agent == s.agent
  {}

}

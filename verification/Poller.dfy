/** Reconciling the running pollers with each new configuration (`traffic_monitor/poller/poller.go`). */
module Poller {
  /** `timeout` is zero when it is not set. */
  datatype PollConfig = PollConfig(url: string, host: string, timeout: int, format: string)

  datatype Config = Config(urls: map<string, PollConfig>, interval: int, noKeepAlive: bool)

  datatype PollInfo = PollInfo(noKeepAlive: bool, interval: int, id: string, config: PollConfig)

  function Info(config: Config, id: string): PollInfo
    requires id in config.urls
  {
    PollInfo(config.noKeepAlive, config.interval, id, config.urls[id])
  }

  /** The poller of an id has the same settings in two configurations. */
  predicate Unchanged(before: Config, after: Config, id: string) {
    && id in before.urls && id in after.urls && before.urls[id] == after.urls[id]
    && before.interval == after.interval && before.noKeepAlive == after.noKeepAlive
  }

  /** The ids whose poller must stop, and those which need a new one. */
  ghost function Stopped(before: Config, after: Config): set<string> {
    set id | id in before.urls && !Unchanged(before, after, id)
  }

  ghost function Renewed(before: Config, after: Config): set<string> {
    set id | id in after.urls && !Unchanged(before, after, id)
  }

  predicate AllChange(before: Config, after: Config) {
    before.interval != after.interval || before.noKeepAlive != after.noKeepAlive
  }

  /** The sequence lists the given ids, each once. */
  ghost predicate ListsIds(s: seq<string>, ids: set<string>) {
    && (forall id :: id in s <==> id in ids)
    && (forall i, j | 0 <= i < j < |s| :: s[i] != s[j])
  }

  /** The additions are the polls of the given ids in the new configuration, each once. */
  ghost predicate ListsPolls(s: seq<PollInfo>, ids: set<string>, config: Config)
    requires ids <= config.urls.Keys
  {
    && (forall i | 0 <= i < |s| :: s[i].id in ids && s[i] == Info(config, s[i].id))
    && (forall id | id in ids :: exists i :: 0 <= i < |s| && s[i].id == id)
    && (forall i, j | 0 <= i < j < |s| :: s[i].id != s[j].id)
  }

  lemma {:induction false} ListsMoreIds(s: seq<string>, ids: set<string>, id: string)
    requires ListsIds(s, ids) && id !in ids
    ensures ListsIds(s + [id], ids + {id})
  {
    assert forall i | 0 <= i < |s| :: s[i] in s;
  }

  lemma {:induction false} ListsMore(s: seq<PollInfo>, ids: set<string>, config: Config, id: string)
    requires ids <= config.urls.Keys && id in config.urls && id !in ids && ListsPolls(s, ids, config)
    ensures ListsPolls(s + [Info(config, id)], ids + {id}, config)
  {
    var s' := s + [Info(config, id)];
    forall x | x in ids + {id}
      ensures exists i :: 0 <= i < |s'| && s'[i].id == x
    {
      if x == id {
        assert s'[|s|].id == id;
      } else {
        var i :| 0 <= i < |s| && s[i].id == x;
        assert s'[i].id == x;
      }
    }
  }

  /** The pollers to stop and to start: all that do not stay the same. */
  method DiffConfigs(before: Config, after: Config) returns (deletions: seq<string>, additions: seq<PollInfo>)
    ensures ListsIds(deletions, Stopped(before, after))
    ensures ListsPolls(additions, Renewed(before, after), after)
  {
    deletions, additions := [], [];
    if AllChange(before, after) {
      var todo := before.urls.Keys;
      while todo != {}
        invariant todo <= before.urls.Keys
        invariant ListsIds(deletions, before.urls.Keys - todo)
        decreases todo
      {
        var id :| id in todo;
        todo := todo - {id};
        deletions := deletions + [id];
      }
      assert Stopped(before, after) == before.urls.Keys;
      assert Renewed(before, after) == after.urls.Keys;
      additions := AddAll(after.urls.Keys, after);
      return;
    }
    ghost var stopped: set<string>, changed: set<string> := {}, {};
    var todo := before.urls.Keys;
    while todo != {}
      invariant todo <= before.urls.Keys
      invariant changed == set id | id in before.urls && id in after.urls && id !in todo && !Unchanged(before, after, id)
      invariant stopped == set id | id in before.urls && id !in todo && !Unchanged(before, after, id)
      invariant ListsIds(deletions, stopped)
      invariant ListsPolls(additions, changed, after)
      decreases todo
    {
      var id :| id in todo;
      todo := todo - {id};
      if id !in after.urls {
        ListsMoreIds(deletions, stopped, id);
        deletions, stopped := deletions + [id], stopped + {id};
      } else if after.urls[id] != before.urls[id] {
        ListsMoreIds(deletions, stopped, id);
        deletions, stopped := deletions + [id], stopped + {id};
        ListsMore(additions, changed, after, id);
        changed := changed + {id};
        additions := additions + [Info(after, id)];
      }
    }
    assert stopped == Stopped(before, after);
    todo := after.urls.Keys;
    while todo != {}
      invariant todo <= after.urls.Keys
      invariant changed
        == set id | id in after.urls && !Unchanged(before, after, id) && (id in before.urls || id !in todo)
      invariant ListsPolls(additions, changed, after)
      decreases todo
    {
      var id :| id in todo;
      todo := todo - {id};
      if id !in before.urls {
        ListsMore(additions, changed, after, id);
        changed := changed + {id};
        additions := additions + [Info(after, id)];
      }
    }
    assert changed == Renewed(before, after);
  }

  method AddAll(ids: set<string>, config: Config) returns (additions: seq<PollInfo>)
    requires ids <= config.urls.Keys
    ensures ListsPolls(additions, ids, config)
  {
    additions := [];
    var todo := ids;
    while todo != {}
      invariant todo <= ids && ListsPolls(additions, ids - todo, config)
      decreases todo
    {
      var id :| id in todo;
      ListsMore(additions, ids - todo, config, id);
      assert ids - (todo - {id}) == (ids - todo) + {id};
      todo := todo - {id};
      additions := additions + [Info(config, id)];
    }
    assert ids - todo == ids;
  }

  /** A poller goroutine with the timeout of its client. */
  datatype Goroutine = Goroutine(info: PollInfo, timeout: int)

  /** The poller has all the settings of its id; the timeout of the template if the id has none. */
  ghost predicate PollsFor(g: Goroutine, config: Config, id: string, templateTimeout: int) {
    && g.info.id == id && id in config.urls && g.info.config == config.urls[id]
    && g.info.interval == config.interval && g.info.noKeepAlive == config.noKeepAlive
    && (config.urls[id].timeout == 0 ==> g.timeout == templateTimeout)
    && (config.urls[id].timeout != 0 ==> g.timeout == config.urls[id].timeout)
  }

  /** Pollers are numbered as they are started; `killChans` knows how to kill the one of each id. */
  class HttpPoller {
    const templateTimeout: int
    var config: Config
    var killChans: map<string, nat>
    var started: seq<Goroutine>
    var killed: set<nat>

    /** There is exactly one live poller for each id of the configuration, with the settings of that id,
        and none for any other id. */
    ghost predicate Valid()
      reads this
    {
      Running(config, killChans, started, killed, templateTimeout)
    }

    constructor (interval: int, timeout: int)
      ensures Valid() && config == Config(map[], interval, false) && started == [] && killed == {}
      ensures templateTimeout == timeout
    {
      templateTimeout, config, killChans, started, killed := timeout, Config(map[], interval, false), map[], [], {};
    }

    method Kill(deletions: seq<string>)
      requires forall i | 0 <= i < |deletions| :: deletions[i] in killChans
      requires forall i, j | 0 <= i < j < |deletions| :: deletions[i] != deletions[j]
      modifies this`killChans, this`killed
      ensures killed == old(killed) + set id | id in deletions && id in old(killChans) :: old(killChans)[id]
      ensures killChans == map id | id in old(killChans) && id !in deletions :: old(killChans)[id]
    {
      for i := 0 to |deletions|
        invariant killed == old(killed) + set id | id in deletions[..i] && id in old(killChans) :: old(killChans)[id]
        invariant killChans == map id | id in old(killChans) && id !in deletions[..i] :: old(killChans)[id]
      {
        var id := deletions[i];
        assert deletions[..i + 1] == deletions[..i] + [id] && id !in deletions[..i];
        killed := killed + {killChans[id]};
        killChans := killChans - {id};
      }
      assert deletions[..|deletions|] == deletions;
    }

    method Start(additions: seq<PollInfo>)
      requires forall i, j | 0 <= i < j < |additions| :: additions[i].id != additions[j].id
      modifies this`killChans, this`started
      ensures Started(additions, old(started), started, old(killChans), killChans, templateTimeout)
    {
      for i := 0 to |additions|
        invariant Started(additions[..i], old(started), started, old(killChans), killChans, templateTimeout)
      {
        var info := additions[i];
        ghost var chans, goroutines := killChans, started;
        killChans := killChans[info.id := |started|];
        var timeout := templateTimeout;
        if info.config.timeout != 0 {
          timeout := info.config.timeout;
        }
        started := started + [Goroutine(info, timeout)];
        assert additions[..i + 1] == additions[..i] + [info];
        StartedMore(additions[..i], info, old(started), goroutines, old(killChans), chans, templateTimeout);
      }
      assert additions[..|additions|] == additions;
    }

    /** One new configuration. A poller whose settings stay the same is left running; every other live
        one is killed, and one is started for each id that is new or has changed. */
    method Configure(newConfig: Config)
      requires Valid()
      modifies this
      ensures Valid() && config == newConfig
      ensures old(started) <= started && old(killed) <= killed
      ensures forall id | Unchanged(old(config), newConfig, id) :: killChans[id] == old(killChans)[id]
      ensures forall id | id in Renewed(old(config), newConfig) :: killChans[id] >= |old(started)|
      ensures killed - old(killed) == set id | id in Stopped(old(config), newConfig) :: old(killChans)[id]
    {
      ghost var oldConfig, chans0, started0, killed0 := config, killChans, started, killed;
      var deletions, additions := DiffConfigs(config, newConfig);
      assert forall i | 0 <= i < |deletions| :: deletions[i] in deletions;
      Kill(deletions);
      ghost var chans1 := killChans;
      Start(additions);
      config := newConfig;
      Reconciled(Change(oldConfig, newConfig, chans0, chans1, killChans, started0, started, killed0, killed, deletions, additions,
                        templateTimeout));
    }

    /** After every message of every run there is one live poller for each id, as it should be. */
    method Poll(configs: seq<Config>)
      requires Valid()
      modifies this
      ensures Valid() && config == if configs == [] then old(config) else configs[|configs| - 1]
    {
      for i := 0 to |configs|
        invariant Valid() && config == if i == 0 then old(config) else configs[i - 1]
      {
        Configure(configs[i]);
      }
    }
  }

  // ---------- On values ----------

  function Timeout(config: PollConfig, templateTimeout: int): int {
    if config.timeout != 0 then config.timeout else templateTimeout
  }

  ghost predicate Running(config: Config, chans: map<string, nat>, started: seq<Goroutine>, killed: set<nat>, templateTimeout: int) {
    && chans.Keys == config.urls.Keys
    && (forall id | id in chans ::
          chans[id] < |started| && chans[id] !in killed && PollsFor(started[chans[id]], config, id, templateTimeout))
    && (forall n | 0 <= n < |started| && n !in killed :: started[n].info.id in chans && chans[started[n].info.id] == n)
    && (forall n | n in killed :: n < |started|)
  }

  /** The additions were started, one after the other. */
  ghost predicate Started(additions: seq<PollInfo>, before: seq<Goroutine>, after: seq<Goroutine>,
                          chans: map<string, nat>, chans': map<string, nat>, templateTimeout: int)
  {
    && |after| == |before| + |additions| && after[..|before|] == before
    && (forall i | 0 <= i < |additions| ::
          after[|before| + i] == Goroutine(additions[i], Timeout(additions[i].config, templateTimeout)))
    && (forall i | 0 <= i < |additions| :: additions[i].id in chans' && chans'[additions[i].id] == |before| + i)
    && (forall id | id in chans' :: id in chans || exists i :: 0 <= i < |additions| && additions[i].id == id)
    && (forall id | id in chans :: id in chans')
    && (forall id | id in chans && (forall i | 0 <= i < |additions| :: additions[i].id != id) :: chans'[id] == chans[id])
  }

  lemma {:induction false} StartedMore(additions: seq<PollInfo>, info: PollInfo, before: seq<Goroutine>,
                                       after: seq<Goroutine>, chans: map<string, nat>, chans': map<string, nat>,
                                       templateTimeout: int)
    requires Started(additions, before, after, chans, chans', templateTimeout)
    requires forall i | 0 <= i < |additions| :: additions[i].id != info.id
    ensures Started(additions + [info], before, after + [Goroutine(info, Timeout(info.config, templateTimeout))],
                    chans, chans'[info.id := |after|], templateTimeout)
  {
    var additions', chans2 := additions + [info], chans'[info.id := |after|];
    forall id | id in chans2 && id !in chans
      ensures exists i :: 0 <= i < |additions'| && additions'[i].id == id
    {
      if id == info.id {
        assert additions'[|additions|].id == id;
      } else {
        var i :| 0 <= i < |additions| && additions[i].id == id;
        assert additions'[i].id == id;
      }
    }
    forall id | id in chans && (forall i | 0 <= i < |additions'| :: additions'[i].id != id)
      ensures chans2[id] == chans[id]
    {
      assert additions'[|additions|].id != id;
      assert forall i | 0 <= i < |additions| :: additions[i] == additions'[i];
    }
  }

  /** Before and after one configuration: the pollers, and those killed and started in between. */
  datatype Change = Change(
    before: Config, after: Config,
    chans0: map<string, nat>, chans1: map<string, nat>, chans2: map<string, nat>,
    started0: seq<Goroutine>, started2: seq<Goroutine>, killed0: set<nat>, killed2: set<nat>,
    deletions: seq<string>, additions: seq<PollInfo>, templateTimeout: int)

  ghost predicate IsChange(x: Change) {
    && Running(x.before, x.chans0, x.started0, x.killed0, x.templateTimeout)
    && ListsIds(x.deletions, Stopped(x.before, x.after))
    && ListsPolls(x.additions, Renewed(x.before, x.after), x.after)
    && x.killed2 == x.killed0 + (set id | id in x.deletions && id in x.chans0 :: x.chans0[id])
    && x.chans1 == (map id | id in x.chans0 && id !in x.deletions :: x.chans0[id])
    && Started(x.additions, x.started0, x.started2, x.chans1, x.chans2, x.templateTimeout)
  }

  lemma {:induction false} KeptPoller(x: Change, id: string)
    requires IsChange(x) && Unchanged(x.before, x.after, id)
    ensures id in x.chans0 && id in x.chans2 && x.chans2[id] == x.chans0[id] && x.chans0[id] < |x.started0|
    ensures x.chans0[id] !in x.killed2
    ensures PollsFor(x.started2[x.chans0[id]], x.after, id, x.templateTimeout)
  {
    assert id !in Stopped(x.before, x.after) && id !in Renewed(x.before, x.after);
    assert id in x.chans1;
    assert forall i | 0 <= i < |x.additions| :: x.additions[i].id in Renewed(x.before, x.after);
    assert x.started2[x.chans0[id]] == x.started2[..|x.started0|][x.chans0[id]];
  }

  lemma {:induction false} StartedPolls(config: Config, id: string, templateTimeout: int)
    requires id in config.urls
    ensures PollsFor(Goroutine(Info(config, id), Timeout(config.urls[id], templateTimeout)), config, id, templateTimeout)
  {
  }

  lemma {:induction false} NewPoller(x: Change, id: string)
    requires IsChange(x) && id in Renewed(x.before, x.after)
    ensures id in x.chans2 && |x.started0| <= x.chans2[id] < |x.started2| && x.chans2[id] !in x.killed2
    ensures PollsFor(x.started2[x.chans2[id]], x.after, id, x.templateTimeout)
  {
    var i :| 0 <= i < |x.additions| && x.additions[i].id == id;
    assert x.additions[i] == Info(x.after, id);
    assert x.started2[|x.started0| + i] == Goroutine(x.additions[i], Timeout(x.after.urls[id], x.templateTimeout));
    StartedPolls(x.after, id, x.templateTimeout);
    assert x.chans2[id] == |x.started0| + i;
    assert forall k | k in x.killed2 :: k < |x.started0|;
  }

  lemma {:induction false} LivePoller(x: Change, n: nat)
    requires IsChange(x) && n < |x.started2| && n !in x.killed2
    ensures x.started2[n].info.id in x.chans2 && x.chans2[x.started2[n].info.id] == n
  {
    var n0 := |x.started0|;
    if n < n0 {
      assert x.started2[n] == x.started2[..n0][n];
      var id := x.started0[n].info.id;
      assert id in x.chans0 && x.chans0[id] == n && id !in x.deletions;
      assert id !in Stopped(x.before, x.after);
      KeptPoller(x, id);
    } else {
      assert x.started2[n0 + (n - n0)].info == x.additions[n - n0];
    }
  }

  lemma {:induction false} PolledIds(x: Change)
    requires IsChange(x)
    ensures x.chans2.Keys == x.after.urls.Keys
  {
    forall id | id in x.chans2
      ensures id in x.after.urls
    {
      if id in x.chans1 {
        assert id !in Stopped(x.before, x.after);
      } else {
        var i :| 0 <= i < |x.additions| && x.additions[i].id == id;
      }
    }
    forall id | id in x.after.urls
      ensures id in x.chans2
    {
      if id in Renewed(x.before, x.after) {
        NewPoller(x, id);
      } else {
        KeptPoller(x, id);
      }
    }
  }

  lemma {:induction false} Reconciled(x: Change)
    requires IsChange(x)
    ensures Running(x.after, x.chans2, x.started2, x.killed2, x.templateTimeout)
    ensures x.started0 <= x.started2
    ensures forall id | Unchanged(x.before, x.after, id) :: id in x.chans0 && x.chans2[id] == x.chans0[id]
    ensures forall id | id in Renewed(x.before, x.after) :: x.chans2[id] >= |x.started0|
    ensures x.killed2 - x.killed0 == set id | id in Stopped(x.before, x.after) :: x.chans0[id]
  {
    PolledIds(x);
    forall id | id in x.chans2
      ensures x.chans2[id] < |x.started2| && x.chans2[id] !in x.killed2
      ensures PollsFor(x.started2[x.chans2[id]], x.after, id, x.templateTimeout)
      ensures if Unchanged(x.before, x.after, id) then id in x.chans0 && x.chans2[id] == x.chans0[id] else x.chans2[id] >= |x.started0|
    {
      if Unchanged(x.before, x.after, id) {
        KeptPoller(x, id);
      } else {
        NewPoller(x, id);
      }
    }
    forall n: nat | n < |x.started2| && n !in x.killed2
      ensures x.started2[n].info.id in x.chans2 && x.chans2[x.started2[n].info.id] == n
    {
      LivePoller(x, n);
    }
  }

  // ---------- The channel of configurations ----------

  /** The channel that takes configurations from the monitor config poller holds at most one, and its writer
      throws an unread one away. Configurations are numbered in the order of writing; `writing` is the one
      that the writer is about to put in. */
  datatype Channel = Channel(written: nat, writing: bool, buffer: seq<nat>, taken: seq<nat>)

  datatype Move = Write | Put | Discard | Read

  ghost predicate CanMove(c: Channel, m: Move) {
    match m
    case Write => !c.writing
    case Put => c.writing && c.buffer == []
    case Discard => c.writing && c.buffer != []
    case Read => c.buffer != []
  }

  ghost function Moved(c: Channel, m: Move): Channel
    requires CanMove(c, m)
  {
    match m
    case Write => c.(written := c.written + 1, writing := true)
    case Put => c.(writing := false, buffer := [c.written])
    case Discard => c.(buffer := [])
    case Read => c.(buffer := [], taken := c.taken + c.buffer)
  }

  predicate Increasing(s: seq<nat>) {
    forall i, j | 0 <= i < j < |s| :: s[i] < s[j]
  }

  /** What is read, then what is in the channel, then what is being written is in the order of writing. */
  ghost predicate ChannelInv(c: Channel) {
    && (c.writing ==> c.written > 0) && |c.buffer| <= 1
    && var all := All(c);
       && Increasing(all) && (forall i | 0 <= i < |all| :: 1 <= all[i] <= c.written)
       && (c.written > 0 ==> all != [] && all[|all| - 1] == c.written)
  }

  ghost predicate IsHistory(history: seq<Channel>, moves: seq<Move>) {
    && |history| == |moves| + 1 && history[0] == Channel(0, false, [], [])
    && forall i | 0 <= i < |moves| :: CanMove(history[i], moves[i]) && history[i + 1] == Moved(history[i], moves[i])
  }

  /** Everything that was read or is on its way, in order. */
  ghost function All(c: Channel): seq<nat> {
    c.taken + c.buffer + if c.writing then [c.written] else []
  }

  lemma {:induction false} DiscardKeepsInv(c: Channel)
    requires ChannelInv(c) && CanMove(c, Discard)
    ensures ChannelInv(Moved(c, Discard))
  {
    var all, all' := All(c), All(Moved(c, Discard));
    var n := |c.taken|;
    assert all' == c.taken + [c.written] && all == c.taken + c.buffer + [c.written];
    assert forall i | 0 <= i < n :: all'[i] == all[i];
    assert all'[n] == all[n + 1];
  }

  lemma {:induction false} SameKeepsInv(c: Channel, d: Channel)
    requires ChannelInv(c) && All(d) == All(c) && d.written == c.written && |d.buffer| <= 1
    requires d.writing ==> c.writing
    ensures ChannelInv(d)
  {
  }

  lemma {:induction false} WriteKeepsInv(c: Channel)
    requires ChannelInv(c) && CanMove(c, Write)
    ensures ChannelInv(Moved(c, Write))
  {
    assert All(Moved(c, Write)) == All(c) + [c.written + 1];
  }

  lemma {:induction false} MoveKeepsInv(c: Channel, m: Move)
    requires ChannelInv(c) && CanMove(c, m)
    ensures ChannelInv(Moved(c, m))
  {
    match m
    case Write => WriteKeepsInv(c);
    case Discard => DiscardKeepsInv(c);
    case _ => SameKeepsInv(c, Moved(c, m));
  }

  /** In every interleaving with the reader, configurations are read in order and none twice; and the last
      one written is never lost: it is still to be put in, in the channel, or the last one read. */
  lemma {:induction false} LatestIsNotLost(history: seq<Channel>, moves: seq<Move>, i: nat)
    requires IsHistory(history, moves) && i < |history|
    ensures ChannelInv(history[i])
    ensures var c := history[i];
      && Increasing(c.taken)
      && (c.written > 0 && !c.writing && c.buffer == [] ==> c.taken != [] && c.taken[|c.taken| - 1] == c.written)
      && (!c.writing && c.buffer != [] ==> c.buffer == [c.written])
  {
    if i > 0 {
      LatestIsNotLost(history, moves, i - 1);
      MoveKeepsInv(history[i - 1], moves[i - 1]);
    }
    var c := history[i];
    var all := All(c);
    assert forall k | 0 <= k < |c.taken| :: c.taken[k] == all[k];
  }
}

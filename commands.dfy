/** `CommandRepository`: the table of background-command records and its lifecycle
    updates. Times are integer seconds; the clock reading `now` is a parameter. */
module Commands {
  import opened Wrappers
  import opened Tables

  datatype CommandStatus = Queued | Started | Completed | Failed | Aborted | Orphaned

  datatype CommandModel = CommandModel(
    id: int,
    name: string,
    status: CommandStatus,
    queuedAt: int,
    startedAt: Option<int>,
    endedAt: Option<int>,
    duration: Option<int>,
    exception: Option<string>)

  /** The retention window of `Trim`: one day. */
  const OneDay := 86400

  /** `EndedAt < now - 1 day`; a command that has not ended never compares less. */
  predicate Expired(c: CommandModel, now: int) {
    c.endedAt.Some? && c.endedAt.value < now - OneDay
  }

  function NotExpired(now: int): CommandModel -> bool {
    (c: CommandModel) => !Expired(c, now)
  }

  /** The table after `Trim`: exactly the expired commands removed, the rest in order. */
  function Trimmed(commands: seq<CommandModel>, now: int): (r: seq<CommandModel>)
    ensures forall c :: c in r <==> c in commands && !Expired(c, now)
    ensures forall c :: c in commands && c.endedAt.None? ==> c in r
    ensures |r| <= |commands|
  {
    Filter(commands, NotExpired(now))
  }

  /** One record after the orphan sweep. */
  function Orphan(c: CommandModel, now: int): (r: CommandModel)
    ensures c.status == Started ==> r.status == Orphaned && r.endedAt == Some(now)
    ensures c.status != Started ==> r == c
    ensures r.id == c.id && r.name == c.name && r.queuedAt == c.queuedAt && r.startedAt == c.startedAt
    ensures r.duration == c.duration && r.exception == c.exception
  {
    if c.status == Started then c.(status := Orphaned, endedAt := Some(now)) else c
  }

  /** The table after `OrphanStarted`: no command is left started. */
  function OrphanedAt(commands: seq<CommandModel>, now: int): (r: seq<CommandModel>)
    ensures |r| == |commands|
    ensures forall k :: 0 <= k < |r| ==> r[k] == Orphan(commands[k], now)
    ensures forall c :: c in r ==> c.status != Started
  {
    seq(|commands|, k requires 0 <= k < |commands| => Orphan(commands[k], now))
  }

  /** The fields a partial update can write. */
  datatype CommandField = StartedAtField | StatusField | EndedAtField | DurationField | ExceptionField

  /** `stored` with the listed fields taken from `command` and every other field kept. */
  function WithFields(stored: CommandModel, command: CommandModel, fields: set<CommandField>): (r: CommandModel)
    ensures r.id == stored.id && r.name == stored.name && r.queuedAt == stored.queuedAt
    ensures r.startedAt == if StartedAtField in fields then command.startedAt else stored.startedAt
    ensures r.status == if StatusField in fields then command.status else stored.status
    ensures r.endedAt == if EndedAtField in fields then command.endedAt else stored.endedAt
    ensures r.duration == if DurationField in fields then command.duration else stored.duration
    ensures r.exception == if ExceptionField in fields then command.exception else stored.exception
  {
    stored.(
      startedAt := if StartedAtField in fields then command.startedAt else stored.startedAt,
      status := if StatusField in fields then command.status else stored.status,
      endedAt := if EndedAtField in fields then command.endedAt else stored.endedAt,
      duration := if DurationField in fields then command.duration else stored.duration,
      exception := if ExceptionField in fields then command.exception else stored.exception)
  }

  /** The fields `Start` writes. */
  const StartFields: set<CommandField> := {StartedAtField, StatusField}

  /** The fields `End` writes. */
  const EndFields: set<CommandField> := {EndedAtField, StatusField, DurationField, ExceptionField}

  /** The table after a partial update of `command`'s record. */
  function Updated(commands: seq<CommandModel>, command: CommandModel, fields: set<CommandField>): (r: seq<CommandModel>)
    ensures |r| == |commands|
    ensures forall k :: 0 <= k < |r| ==>
              r[k] == if commands[k].id == command.id then WithFields(commands[k], command, fields) else commands[k]
  {
    seq(|commands|, k requires 0 <= k < |commands| =>
      if commands[k].id == command.id then WithFields(commands[k], command, fields) else commands[k])
  }

  function HasName(name: string): CommandModel -> bool {
    (c: CommandModel) => c.name == name
  }

  function HasStatus(status: CommandStatus): CommandModel -> bool {
    (c: CommandModel) => c.status == status
  }

  function QueuedOrStartedNamed(name: string): CommandModel -> bool {
    (c: CommandModel) => c.name == name && c.status in [Queued, Started]
  }

  class CommandRepository {
    var commands: seq<CommandModel>

    constructor (commands: seq<CommandModel>)
      ensures this.commands == commands
    {
      this.commands := commands;
    }

    /** `Trim`: deletes the commands that ended more than a day before `now`. */
    method Trim(now: int)
      modifies this
      ensures commands == Trimmed(old(commands), now)
    {
      commands := Filter(commands, NotExpired(now));
    }

    /** `OrphanStarted`: one UPDATE over the table, record by record. */
    method OrphanStarted(now: int)
      modifies this
      ensures commands == OrphanedAt(old(commands), now)
    {
      var i := 0;
      while i < |commands|
        invariant 0 <= i <= |commands| && |commands| == |old(commands)|
        invariant forall k :: 0 <= k < i ==> commands[k] == Orphan(old(commands)[k], now)
        invariant forall k :: i <= k < |commands| ==> commands[k] == old(commands)[k]
      {
        if commands[i].status == Started {
          commands := commands[i := commands[i].(status := Orphaned, endedAt := Some(now))];
        }
        i := i + 1;
      }
    }

    /** `SetFields`: writes the listed fields of `command` into its stored record. */
    method SetFields(command: CommandModel, fields: set<CommandField>)
      modifies this
      ensures commands == Updated(old(commands), command, fields)
    {
      var i := 0;
      while i < |commands|
        invariant 0 <= i <= |commands| && |commands| == |old(commands)|
        invariant forall k :: 0 <= k < i ==>
                    commands[k] == if old(commands)[k].id == command.id then WithFields(old(commands)[k], command, fields) else old(commands)[k]
        invariant forall k :: i <= k < |commands| ==> commands[k] == old(commands)[k]
      {
        if commands[i].id == command.id {
          commands := commands[i := WithFields(commands[i], command, fields)];
        }
        i := i + 1;
      }
    }

    /** `Start`: writes `StartedAt` and `Status` only. */
    method Start(command: CommandModel)
      modifies this
      ensures commands == Updated(old(commands), command, StartFields)
    {
      SetFields(command, StartFields);
    }

    /** `End`: writes `EndedAt`, `Status`, `Duration` and `Exception` only. */
    method End(command: CommandModel)
      modifies this
      ensures commands == Updated(old(commands), command, EndFields)
    {
      SetFields(command, EndFields);
    }

    /** `FindCommands`: exactly the commands with this name. */
    function FindCommands(name: string): (r: seq<CommandModel>)
      reads this
      ensures forall c :: c in r <==> c in commands && c.name == name
    {
      Filter(commands, HasName(name))
    }

    /** `FindQueuedOrStarted`: exactly the commands with this name that are queued or started. */
    function FindQueuedOrStarted(name: string): (r: seq<CommandModel>)
      reads this
      ensures forall c :: c in r <==> c in commands && c.name == name && (c.status == Queued || c.status == Started)
    {
      Filter(commands, QueuedOrStartedNamed(name))
    }

    /** `Queued`: exactly the queued commands. */
    function QueuedCommands(): (r: seq<CommandModel>)
      reads this
      ensures forall c :: c in r <==> c in commands && c.status == Queued
    {
      Filter(commands, HasStatus(Queued))
    }

    /** `Started`: exactly the started commands. */
    function StartedCommands(): (r: seq<CommandModel>)
      reads this
      ensures forall c :: c in r <==> c in commands && c.status == Started
    {
      Filter(commands, HasStatus(Started))
    }
  }

  /** After the orphan sweep nothing is started, so `Started()` answers nothing. */
  lemma OrphanThenNoneStarted(commands: seq<CommandModel>, now: int)
    ensures Filter(OrphanedAt(commands, now), HasStatus(Started)) == []
  {
    FilterNone(OrphanedAt(commands, now), HasStatus(Started));
  }

  /** Trimming twice at the same time removes nothing more. */
  lemma {:induction false} TrimIdempotent(commands: seq<CommandModel>, now: int)
    ensures Trimmed(Trimmed(commands, now), now) == Trimmed(commands, now)
  {
    FilterAllKept(Trimmed(commands, now), NotExpired(now));
  }

  /** A record the orphan sweep changes was started, becomes orphaned, and keeps its
      identity and name; a second sweep changes nothing. */
  lemma OrphanIdempotent(commands: seq<CommandModel>, now: int, later: int)
    ensures OrphanedAt(OrphanedAt(commands, now), later) == OrphanedAt(commands, now)
  {
    var once := OrphanedAt(commands, now);
    assert forall k :: 0 <= k < |once| ==> Orphan(once[k], later) == once[k];
  }

  /** `Start` then `End` of the same command leaves its record with the end status and the
      start time `Start` wrote, and its queue time untouched. */
  lemma StartThenEnd(commands: seq<CommandModel>, started: CommandModel, ended: CommandModel, k: int)
    requires 0 <= k < |commands| && commands[k].id == started.id == ended.id
    ensures var after := Updated(Updated(commands, started, StartFields), ended, EndFields);
            after[k].startedAt == started.startedAt && after[k].status == ended.status &&
            after[k].endedAt == ended.endedAt && after[k].queuedAt == commands[k].queuedAt
  {
  }
}

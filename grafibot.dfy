/**
 * The client: four insertion-ordered registries, filled from the files of
 * four folders, the event subscriptions made along the way, and the
 * deployment of the slash commands. Reading the folders and importing the
 * files is replaced by the list of what each file default-exports.
 */
module Registry {

  import opened Options
  import opened Platform
  import opened OrderedMaps
  import opened Units
  import opened ChannelLogger
  import opened ReactionResponses

  /** The index of the last `.` in `s`, or -1. */
  function LastDot(s: string): (i: int)
    ensures -1 <= i < |s|
    ensures i >= 0 ==> s[i] == '.'
    ensures forall j :: i < j < |s| ==> s[j] != '.'
  {
    if s == [] then -1
    else if s[|s| - 1] == '.' then |s| - 1
    else LastDot(s[..|s| - 1])
  }

  /**
   * `parse(file).name`: the file name without its last extension. The last
   * dot starts the extension unless it is the first character, or the name
   * is exactly `..`.
   */
  function BaseName(file: string): (name: string)
    ensures name <= file
    ensures name != file <==> LastDot(file) > 0 && file != ".."
    ensures name != file ==> file[|name|] == '.' && '.' !in file[|name| + 1..]
  {
    var d := LastDot(file);
    if d > 0 && file != ".." then file[..d] else file
  }

  /** Dot-only names and leading dots, as `path.parse` treats them. */
  lemma BaseNameExamples()
    ensures BaseName("CapsLockFilter.ts") == "CapsLockFilter"
    ensures BaseName(".env") == ".env" && BaseName("..") == ".."
    ensures BaseName("..a") == "." && BaseName("...") == ".."
    ensures BaseName("a.b.c") == "a.b"
  {
    assert LastDot("CapsLockFilter.ts") == 14 by {
      assert "CapsLockFilter.ts"[..16][..15] == "CapsLockFilter.";
    }
    assert LastDot(".env") == 0 by {
      assert ".env"[..3] == ".en" && ".en"[..2] == ".e" && ".e"[..1] == ".";
    }
    assert LastDot("..a") == 1 by { assert "..a"[..2] == ".."; }
    assert LastDot("a.b.c") == 3 by { assert "a.b.c"[..4] == "a.b."; }
  }

  /** A name without dots keeps its name once an extension is added, whatever the extension. */
  lemma ExtensionDropped(name: string, ext: string)
    requires name != [] && '.' !in name && '.' !in ext
    ensures BaseName(name + "." + ext) == name
  {
    var file := name + "." + ext;
    assert file[|name|] == '.';
    assert forall j :: |name| < j < |file| ==> file[j] == ext[j - |name| - 1];
    assert LastDot(file) == |name|;
    assert file[..|name|] == name;
    assert file != ".." by { assert file[0] == name[0] != '.'; }
  }

  /** The registry entries made by each loop, one per file, keyed as the loop keys them. */
  function EventEntries(files: seq<EventKind>): (e: seq<(string, EventKind)>)
    ensures |e| == |files| && forall i {:trigger e[i]} :: 0 <= i < |files| ==> e[i] == (EventType(files[i]), files[i])
  {
    seq(|files|, i requires 0 <= i < |files| => (EventType(files[i]), files[i]))
  }

  function CommandEntries(files: seq<CommandKind>): (e: seq<(string, CommandKind)>)
    ensures |e| == |files| && forall i :: 0 <= i < |files| ==> e[i] == (CommandName(files[i]), files[i])
  {
    seq(|files|, i requires 0 <= i < |files| => (CommandName(files[i]), files[i]))
  }

  function FileEntries<V>(files: seq<(string, V)>): (e: seq<(string, V)>)
    ensures |e| == |files| && forall i :: 0 <= i < |files| ==> e[i] == (BaseName(files[i].0), files[i].1)
  {
    seq(|files|, i requires 0 <= i < |files| => (BaseName(files[i].0), files[i].1))
  }

  /** Every command is registered under its own name. */
  predicate KeyedByName(m: OrderedMap<CommandKind>)
  {
    forall k :: k in m.values ==> CommandName(m.values[k]) == k
  }

  /** The deployment payload: the JSON of every registered command, in registry order. */
  function Payload(m: OrderedMap<CommandKind>): (p: seq<CommandJson>)
    requires Valid(m)
    ensures |p| == |m.keys|
  {
    var vs := Values(m);
    seq(|vs|, i requires 0 <= i < |vs| => Json(vs[i]))
  }

  class Grafibot {
    var logger: Logger
    var events: OrderedMap<EventKind>
    var commands: OrderedMap<CommandKind>
    var filters: OrderedMap<Filter>
    var responses: OrderedMap<ResponseKind>
    /** One entry per `on` call: the kind of the event whose receiver was bound, which fixes the event type listened to. */
    var subscriptions: seq<EventKind>

    ghost predicate Valid()
      reads this
    {
      OrderedMaps.Valid(events) && OrderedMaps.Valid(commands) && OrderedMaps.Valid(filters)
      && OrderedMaps.Valid(responses) && KeyedByName(commands)
    }

    constructor ()
      ensures Valid() && fresh(logger) && logger.channel == None
      ensures events == Empty() && commands == Empty() && filters == Empty() && responses == Empty()
      ensures subscriptions == []
    {
      logger := new Logger();
      events, commands, filters, responses := Empty(), Empty(), Empty(), Empty();
      subscriptions := [];
    }

    /** `_registerEvents`: one `set` under `event.type` and one subscription per file. */
    method RegisterEvents(files: seq<EventKind>)
      requires Valid()
      modifies this
      ensures Valid()
      ensures events == SetAll(old(events), EventEntries(files))
      ensures subscriptions == old(subscriptions) + files
      ensures commands == old(commands) && filters == old(filters) && responses == old(responses) && logger == old(logger)
    {
      events, subscriptions := AddEvents(events, subscriptions, files);
    }

    /** `_registerCommands`: one `set` under `command.name` per file. */
    method RegisterCommands(files: seq<CommandKind>)
      requires Valid()
      modifies this
      ensures Valid()
      ensures commands == SetAll(old(commands), CommandEntries(files))
      ensures events == old(events) && filters == old(filters) && responses == old(responses)
      ensures subscriptions == old(subscriptions) && logger == old(logger)
    {
      RegisteredByName(commands, files);
      commands := AddCommands(commands, files);
    }

    /** `_registerFilters`: one `set` per file, under the file's base name. */
    method RegisterFilters(files: seq<(string, Filter)>)
      requires Valid()
      modifies this
      ensures Valid()
      ensures filters == SetAll(old(filters), FileEntries(files))
      ensures events == old(events) && commands == old(commands) && responses == old(responses)
      ensures subscriptions == old(subscriptions) && logger == old(logger)
    {
      filters := AddFiles(filters, files);
    }

    /** `_registerReactionResponses`: one `set` per file, under the file's base name. */
    method RegisterResponses(files: seq<(string, ResponseKind)>)
      requires Valid()
      modifies this
      ensures Valid()
      ensures responses == SetAll(old(responses), FileEntries(files))
      ensures events == old(events) && commands == old(commands) && filters == old(filters)
      ensures subscriptions == old(subscriptions) && logger == old(logger)
    {
      responses := AddFiles(responses, files);
    }

    /** `registerAllComponents`: events, then commands, then filters, then reaction responses. */
    method RegisterAllComponents(eventFiles: seq<EventKind>, commandFiles: seq<CommandKind>,
                                 filterFiles: seq<(string, Filter)>, responseFiles: seq<(string, ResponseKind)>)
      requires Valid()
      modifies this
      ensures Valid()
      ensures events == SetAll(old(events), EventEntries(eventFiles))
      ensures commands == SetAll(old(commands), CommandEntries(commandFiles))
      ensures filters == SetAll(old(filters), FileEntries(filterFiles))
      ensures responses == SetAll(old(responses), FileEntries(responseFiles))
      ensures subscriptions == old(subscriptions) + eventFiles && logger == old(logger)
    {
      RegisterEvents(eventFiles);
      RegisterCommands(commandFiles);
      RegisterFilters(filterFiles);
      RegisterResponses(responseFiles);
    }

    /** `deployCommands`: the payload is built in registry order; a refused upload becomes one generic failure. */
    method DeployCommands(putOk: bool) returns (payload: seq<CommandJson>, outcome: Outcome)
      requires Valid()
      ensures payload == Payload(commands)
      ensures outcome == if putOk then Done else Threw(DeployFailed)
    {
      var registered := Values(commands);
      payload := [];
      for i := 0 to |registered|
        invariant payload == Payload(commands)[..i]
      {
        payload := payload + [Json(registered[i])];
      }
      outcome := if putOk then Done else Threw(DeployFailed);
    }
  }

  /**
   * The loop of `_registerEvents`: for each file, `set` under `event.type`
   * and one more subscription.
   */
  method AddEvents(m: OrderedMap<EventKind>, subs: seq<EventKind>, files: seq<EventKind>)
    returns (registered: OrderedMap<EventKind>, subscribed: seq<EventKind>)
    requires Valid(m)
    ensures registered == SetAll(m, EventEntries(files))
    ensures subscribed == subs + files
  {
    ghost var entries := EventEntries(files);
    registered, subscribed := m, subs;
    for i := 0 to |files|
      invariant registered == SetAll(m, entries[..i])
      invariant subscribed == subs + files[..i]
    {
      var event := files[i];
      SetAllStep(m, entries, i);
      SubscribeStep(subs, files, i);
      registered := Set(registered, EventType(event), event);
      subscribed := subscribed + [event];
    }
    assert entries[..|files|] == entries && files[..|files|] == files;
  }

  /** The loop of `_registerCommands`: for each file, `set` under `command.name`. */
  method AddCommands(m: OrderedMap<CommandKind>, files: seq<CommandKind>) returns (registered: OrderedMap<CommandKind>)
    requires Valid(m)
    ensures registered == SetAll(m, CommandEntries(files))
  {
    ghost var entries := CommandEntries(files);
    registered := m;
    for i := 0 to |files|
      invariant registered == SetAll(m, entries[..i])
    {
      var command := files[i];
      SetAllStep(m, entries, i);
      registered := Set(registered, CommandName(command), command);
    }
    assert entries[..|files|] == entries;
  }

  /** The loop of `_registerFilters` and `_registerReactionResponses`: for each file, `set` under its base name. */
  method AddFiles<V>(m: OrderedMap<V>, files: seq<(string, V)>) returns (registered: OrderedMap<V>)
    requires Valid(m)
    ensures registered == SetAll(m, FileEntries(files))
  {
    ghost var entries := FileEntries(files);
    registered := m;
    for i := 0 to |files|
      invariant registered == SetAll(m, entries[..i])
    {
      var (file, component) := files[i];
      SetAllStep(m, entries, i);
      registered := Set(registered, BaseName(file), component);
    }
    assert entries[..|files|] == entries;
  }

  lemma SetKeepsNames(m: OrderedMap<CommandKind>, c: CommandKind)
    requires OrderedMaps.Valid(m) && KeyedByName(m)
    ensures KeyedByName(Set(m, CommandName(c), c))
  {
  }

  /** Subscribing one more file extends the subscriptions by that file. */
  lemma SubscribeStep(subs: seq<EventKind>, files: seq<EventKind>, i: nat)
    requires i < |files|
    ensures subs + files[..i + 1] == (subs + files[..i]) + [files[i]]
  {
    assert files[..i + 1] == files[..i] + [files[i]];
  }

  /** Registration keeps every command under its own name. */
  lemma {:induction false} RegisteredByName(m: OrderedMap<CommandKind>, files: seq<CommandKind>)
    requires OrderedMaps.Valid(m) && KeyedByName(m)
    ensures KeyedByName(SetAll(m, CommandEntries(files)))
  {
    if files != [] {
      var init := files[..|files| - 1];
      assert CommandEntries(files)[..|files| - 1] == CommandEntries(init);
      RegisteredByName(m, init);
      SetKeepsNames(SetAll(m, CommandEntries(init)), files[|files| - 1]);
    }
  }

  /** The payload carries one description per registered name, in registry order: no name is deployed twice. */
  lemma PayloadOnePerName(m: OrderedMap<CommandKind>)
    requires OrderedMaps.Valid(m) && KeyedByName(m)
    ensures forall i :: 0 <= i < |m.keys| ==> Payload(m)[i].name == m.keys[i]
    ensures forall i, j :: 0 <= i < j < |Payload(m)| ==> Payload(m)[i].name != Payload(m)[j].name
  {
    forall i | 0 <= i < |m.keys|
      ensures Payload(m)[i].name == m.keys[i]
    {
      assert Get(m, m.keys[i]) == Some(Values(m)[i]);
    }
  }

  /** Two receivers of the same type: one registry entry, two subscriptions. */
  lemma SubscriptionsCanOutnumberEntries(kind: EventKind)
    ensures |SetAll(Empty(), EventEntries([kind, kind])).keys| == 1
  {
    var e, k := EventEntries([kind, kind]), EventType(kind);
    var empty: OrderedMap<EventKind> := Empty();
    assert e[..1][..0] == [];
    var once := SetAll(empty, e[..1]);
    assert SetAll(empty, e[..1][..0]) == empty;
    assert once == Set(empty, k, kind);
    assert once.keys == [k];
    assert SetAll(empty, e) == Set(once, k, kind);
  }

  /** Whatever the files, the registry never has more entries than there were files. */
  lemma EntriesAtMostFiles<V>(files: seq<(string, V)>)
    ensures |SetAll(Empty(), FileEntries(files)).keys| <= |files|
  {
    KeysGrowInPlace(Empty(), FileEntries(files));
  }
}

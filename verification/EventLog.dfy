/**
 The crash-safe event log of a job (`jobs/store.py`): one JSON row per event, a tail that a
 crash may tear anywhere, a repair before the first append, and a cached sequence number.
 */
module EventLog {
  import opened Common

  /** One status event; `body` is everything but its number. */
  datatype Event = Event(number: nat, body: string)

  datatype Codec = Codec(encode: Event -> string, parse: string -> Option<Event>)

  const NEWLINE := '\n'

  /** What the log needs of its JSON encoding. */
  ghost predicate Reliable(codec: Codec) {
    && (forall e :: codec.encode(e) != [] && NEWLINE !in codec.encode(e) && codec.parse(codec.encode(e)) == Some(e))
    && (forall e, k :: 0 <= k < |codec.encode(e)| ==> codec.parse(codec.encode(e)[..k]).None?)
    && (forall row :: NEWLINE !in row ==> codec.parse(row + [NEWLINE]) == codec.parse(row))
  }

  // ----- rows -----

  /** The length of the first row, its newline included. */
  function RowLength(file: string): (n: nat)
    requires file != []
    ensures 0 < n <= |file| && NEWLINE !in file[..n - 1]
    ensures file[n - 1] != NEWLINE ==> n == |file| && NEWLINE !in file
  {
    if file[0] == NEWLINE || |file| == 1 then 1
    else
      assert file[1..][..RowLength(file[1..]) - 1] == file[1..RowLength(file[1..])];
      RowLength(file[1..]) + 1
  }

  /** The events of a file: rows are read until one does not parse. */
  function Parsed(codec: Codec, file: string): seq<Event>
    decreases |file|
  {
    if file == [] then []
    else
      var n := RowLength(file);
      match codec.parse(file[..n])
      case None => []
      case Some(e) => [e] + Parsed(codec, file[n..])
  }

  /** The file after a repair: cut at the first row that does not parse, its last newline restored. */
  function Repaired(codec: Codec, file: string): string
    decreases |file|
  {
    if file == [] then []
    else
      var n := RowLength(file);
      if codec.parse(file[..n]).None? then []
      else if file[n - 1] != NEWLINE then file + [NEWLINE]
      else file[..n] + Repaired(codec, file[n..])
  }

  /** The rows of whole events. */
  function Rows(codec: Codec, events: seq<Event>): string {
    if events == [] then [] else codec.encode(events[0]) + [NEWLINE] + Rows(codec, events[1..])
  }

  lemma FirstRow(row: string, rest: string)
    requires NEWLINE !in row
    ensures RowLength(row + [NEWLINE] + rest) == |row| + 1
  {
    var file := row + [NEWLINE] + rest;
    var n := RowLength(file);
    assert file[|row|] == NEWLINE;
  }

  /** Reading and repairing go row by row. */
  lemma RowByRow(codec: Codec, row: string, rest: string)
    requires NEWLINE !in row
    ensures
      var file := row + [NEWLINE] + rest;
      match codec.parse(row + [NEWLINE])
      case None => Parsed(codec, file) == [] && Repaired(codec, file) == []
      case Some(e) =>
        && Parsed(codec, file) == [e] + Parsed(codec, rest)
        && Repaired(codec, file) == row + [NEWLINE] + Repaired(codec, rest)
  {
    var file := row + [NEWLINE] + rest;
    FirstRow(row, rest);
    assert file[..|row| + 1] == row + [NEWLINE] && file[|row| + 1..] == rest;
  }

  lemma RowReads(codec: Codec, e: Event)
    requires Reliable(codec)
    ensures NEWLINE !in codec.encode(e) && codec.encode(e) != []
    ensures codec.parse(codec.encode(e)) == codec.parse(codec.encode(e) + [NEWLINE]) == Some(e)
  {
  }

  lemma NewlineReadsTheSame(codec: Codec, row: string)
    requires Reliable(codec) && NEWLINE !in row
    ensures codec.parse(row + [NEWLINE]) == codec.parse(row)
  {
  }

  /** A repair changes no reading, whatever the file holds, and a repaired file needs no other. */
  lemma {:induction false} RepairKeepsReading(codec: Codec, file: string)
    requires Reliable(codec)
    ensures Parsed(codec, Repaired(codec, file)) == Parsed(codec, file)
    ensures Repaired(codec, Repaired(codec, file)) == Repaired(codec, file)
    decreases |file|
  {
    hide Reliable;
    if file != [] {
      var n := RowLength(file);
      if file[n - 1] == NEWLINE {
        var row, rest := file[..n - 1], file[n..];
        assert file == row + [NEWLINE] + rest;
        hide Parsed, Repaired, RowLength;
        RowByRow(codec, row, rest);
        RowByRow(codec, row, Repaired(codec, rest));
        RepairKeepsReading(codec, rest);
        EmptyFile(codec);
      } else {
        RepairedLastRow(codec, file);
      }
    }
  }

  lemma EmptyFile(codec: Codec)
    ensures Parsed(codec, []) == [] && Repaired(codec, []) == []
  {
  }

  lemma RepairedLastRow(codec: Codec, file: string)
    requires Reliable(codec) && NEWLINE !in file && file != []
    ensures match codec.parse(file)
      case None => Parsed(codec, file) == [] && Repaired(codec, file) == []
      case Some(e) => Parsed(codec, file) == [e] && Repaired(codec, file) == file + [NEWLINE]
    ensures Parsed(codec, Repaired(codec, file)) == Parsed(codec, file)
    ensures Repaired(codec, Repaired(codec, file)) == Repaired(codec, file)
  {
    var n := RowLength(file);
    assert n == |file| && file[..n] == file && file[n..] == [];
    NewlineReadsTheSame(codec, file);
    RowByRow(codec, file, []);
    assert file + [NEWLINE] + [] == file + [NEWLINE];
  }

  /** How one row of a file is read and repaired. */
  lemma RowRead(codec: Codec, file: string)
    requires file != []
    ensures
      var n := RowLength(file);
      match codec.parse(file[..n])
      case None => Parsed(codec, file) == [] && Repaired(codec, file) == []
      case Some(e) =>
        && Parsed(codec, file) == [e] + Parsed(codec, file[n..])
        && if file[n - 1] != NEWLINE then n == |file| && Repaired(codec, file) == file + [NEWLINE]
           else Repaired(codec, file) == file[..n] + Repaired(codec, file[n..])
  {
  }

  lemma NothingRead(codec: Codec)
    ensures Parsed(codec, []) == [] && Repaired(codec, []) == []
  {
  }

  /** Whole rows are read back as they were written, and no repair touches them. */
  lemma {:induction false} RowsRead(codec: Codec, events: seq<Event>, rest: string)
    requires Reliable(codec)
    ensures Parsed(codec, Rows(codec, events) + rest) == events + Parsed(codec, rest)
    ensures Repaired(codec, Rows(codec, events) + rest) == Rows(codec, events) + Repaired(codec, rest)
    decreases |events|
  {
    hide Reliable, Parsed, Repaired;
    if events == [] {
      assert Rows(codec, events) + rest == rest;
    } else {
      var row, tail := codec.encode(events[0]), Rows(codec, events[1..]) + rest;
      assert Rows(codec, events) + rest == row + [NEWLINE] + tail;
      RowReads(codec, events[0]);
      RowByRow(codec, row, tail);
      RowsRead(codec, events[1..], rest);
    }
  }

  /** A single row without a newline at the end of a file counts if it parses, and a repair completes or drops it. */
  lemma LastRow(codec: Codec, row: string)
    requires NEWLINE !in row && row != []
    ensures
      match codec.parse(row)
      case None => Parsed(codec, row) == [] && Repaired(codec, row) == []
      case Some(e) => Parsed(codec, row) == [e] && Repaired(codec, row) == row + [NEWLINE]
  {
    assert RowLength(row) == |row|;
    assert row[..|row|] == row && row[|row|..] == [];
  }

  /** A row of which any part is missing does not parse. */
  lemma CutRowDoesNotParse(codec: Codec, e: Event, k: nat)
    requires Reliable(codec) && 0 < k < |codec.encode(e)|
    ensures codec.parse(codec.encode(e)[..k]) == None && NEWLINE !in codec.encode(e)[..k]
  {
  }

  /** A row cut after `k` characters counts exactly when only its newline is missing, or nothing. */
  lemma TornRow(codec: Codec, e: Event, k: nat)
    requires Reliable(codec) && k <= |codec.encode(e)| + 1
    ensures
      var torn := (codec.encode(e) + [NEWLINE])[..k];
      var whole := k >= |codec.encode(e)|;
      && Parsed(codec, torn) == (if whole then [e] else [])
      && Repaired(codec, torn) == if whole then codec.encode(e) + [NEWLINE] else []
  {
    hide Reliable, RowLength;
    var row := codec.encode(e);
    var torn := (row + [NEWLINE])[..k];
    RowReads(codec, e);
    if k == |row| + 1 {
      hide Parsed, Repaired;
      assert torn == row + [NEWLINE] == Rows(codec, [e]) + [] by {
        assert [e][1..] == [];
      }
      RowsRead(codec, [e], []);
      NothingRead(codec);
    } else if k == |row| {
      hide Parsed, Repaired;
      assert torn == row;
      LastRow(codec, row);
    } else if k > 0 {
      hide Parsed, Repaired;
      assert torn == row[..k];
      CutRowDoesNotParse(codec, e, k);
      LastRow(codec, torn);
    }
  }

  // ----- the log and what happens to it -----

  /** The file, and the last number the process has cached since its start. */
  datatype Log = Log(file: string, cached: Option<nat>)

  /** An append, one that a crash cuts after `k` characters, a crash during a repair, a restart. */
  datatype LogAction = Append(body: string) | AppendTorn(body: string, k: nat) | RepairTorn(done: bool) | Restart

  function LastNumber(events: seq<Event>): nat {
    if events == [] then 0 else events[|events| - 1].number
  }

  /** The log as the first use in a process leaves it: repaired, its last number cached. */
  function Opened(codec: Codec, s: Log): (r: Log)
    ensures r.cached.Some?
  {
    if s.cached.Some? then s else Log(Repaired(codec, s.file), Some(LastNumber(Parsed(codec, s.file))))
  }

  function NextEvent(codec: Codec, s: Log, body: string): Event {
    Event(Opened(codec, s).cached.value + 1, body)
  }

  function Payload(codec: Codec, e: Event): string {
    codec.encode(e) + [NEWLINE]
  }

  function Next(codec: Codec, s: Log, a: LogAction): Log {
    match a
    case Append(body) =>
      var e := NextEvent(codec, s, body);
      Log(Opened(codec, s).file + Payload(codec, e), Some(e.number))
    case AppendTorn(body, k) =>
      var payload := Payload(codec, NextEvent(codec, s, body));
      Log(Opened(codec, s).file + payload[..if k < |payload| then k else |payload|], None)
    case RepairTorn(done) => Log(if done && s.cached.None? then Repaired(codec, s.file) else s.file, None)
    case Restart => Log(s.file, None)
  }

  function RunLog(codec: Codec, s: Log, actions: seq<LogAction>): Log
    decreases |actions|
  {
    if actions == [] then s else RunLog(codec, Next(codec, s, actions[0]), actions[1..])
  }

  /** The events that `append_event` has returned. */
  function Acknowledged(codec: Codec, s: Log, actions: seq<LogAction>): seq<Event>
    decreases |actions|
  {
    if actions == [] then []
    else
      (if actions[0].Append? then [NextEvent(codec, s, actions[0].body)] else [])
      + Acknowledged(codec, Next(codec, s, actions[0]), actions[1..])
  }

  /** Numbers 1 to n without a gap. */
  predicate Numbered(events: seq<Event>) {
    forall i :: 0 <= i < |events| ==> events[i].number == i + 1
  }

  predicate LogInv(codec: Codec, s: Log) {
    var events := Parsed(codec, s.file);
    && Numbered(events) && Repaired(codec, s.file) == Rows(codec, events)
    && (s.cached.Some? ==> s.file == Rows(codec, events) && s.cached.value == |events|)
  }

  lemma RowsAlone(codec: Codec, events: seq<Event>)
    requires Reliable(codec)
    ensures Parsed(codec, Rows(codec, events)) == events && Repaired(codec, Rows(codec, events)) == Rows(codec, events)
  {
    hide Reliable;
    RowsRead(codec, events, []);
    EmptyFile(codec);
    assert Rows(codec, events) + [] == Rows(codec, events) && events + [] == events;
  }

  lemma {:induction false} RowsAppend(codec: Codec, events: seq<Event>, e: Event)
    ensures Rows(codec, events + [e]) == Rows(codec, events) + Payload(codec, e)
  {
    if events == [] {
      assert events + [e] == [e];
      assert Rows(codec, [e][1..]) == [];
    } else {
      assert (events + [e])[1..] == events[1..] + [e];
      RowsAppend(codec, events[1..], e);
    }
  }

  lemma OpenedKeepsInv(codec: Codec, s: Log)
    requires Reliable(codec) && LogInv(codec, s)
    ensures LogInv(codec, Opened(codec, s)) && Parsed(codec, Opened(codec, s).file) == Parsed(codec, s.file)
  {
    hide Reliable;
    RowsAlone(codec, Parsed(codec, s.file));
  }

  /** Rows, and then a payload cut after `k` characters. */
  lemma RowsThenTorn(codec: Codec, events: seq<Event>, e: Event, k: nat)
    requires Reliable(codec) && k <= |Payload(codec, e)|
    ensures
      var file := Rows(codec, events) + Payload(codec, e)[..k];
      var now := if k >= |codec.encode(e)| then events + [e] else events;
      Parsed(codec, file) == now && Repaired(codec, file) == Rows(codec, now)
  {
    TornRow(codec, e, k);
    hide Reliable, Parsed, Repaired;
    RowsRead(codec, events, Payload(codec, e)[..k]);
    RowsAppend(codec, events, e);
    assert Rows(codec, events) + [] == Rows(codec, events);
  }

  /** Each step keeps the invariant and every event that could be read, and acknowledges the next number. */
  lemma StepKeepsLog(codec: Codec, s: Log, a: LogAction)
    requires Reliable(codec) && LogInv(codec, s)
    ensures LogInv(codec, Next(codec, s, a)) && Parsed(codec, s.file) <= Parsed(codec, Next(codec, s, a).file)
    ensures a.Append? || a.AppendTorn? ==>
      NextEvent(codec, s, a.body) == Event(|Parsed(codec, s.file)| + 1, a.body)
    ensures a.Append? ==>
      Parsed(codec, Next(codec, s, a).file) == Parsed(codec, s.file) + [Event(|Parsed(codec, s.file)| + 1, a.body)]
    ensures a.AppendTorn? ==>
      var event := Event(|Parsed(codec, s.file)| + 1, a.body);
      Parsed(codec, Next(codec, s, a).file) ==
        Parsed(codec, s.file) + if a.k >= |codec.encode(event)| then [event] else []
    ensures a.RepairTorn? || a.Restart? ==> Parsed(codec, Next(codec, s, a).file) == Parsed(codec, s.file)
  {
    hide Reliable, Parsed, Repaired;
    var events := Parsed(codec, s.file);
    OpenedKeepsInv(codec, s);
    if a.Append? || a.AppendTorn? {
      var e := NextEvent(codec, s, a.body);
      var payload := Payload(codec, e);
      var k := if a.Append? || a.k >= |payload| then |payload| else a.k;
      assert Opened(codec, s).file == Rows(codec, events) && e.number == |events| + 1;
      assert payload[..|payload|] == payload;
      RowsThenTorn(codec, events, e, k);
      RowsAppend(codec, events, e);
    } else {
      RepairKeepsReading(codec, s.file);
    }
  }

  lemma EmptyLog(codec: Codec)
    ensures LogInv(codec, Log([], None))
  {
  }

  /** An acknowledged event is read at the place of its number. */
  predicate Kept(events: seq<Event>, e: Event) {
    1 <= e.number <= |events| && events[e.number - 1] == e
  }

  predicate Increasing(events: seq<Event>) {
    forall i, j :: 0 <= i < j < |events| ==> events[i].number < events[j].number
  }

  lemma {:induction false} RunKeepsLog(codec: Codec, s: Log, actions: seq<LogAction>)
    requires Reliable(codec) && LogInv(codec, s)
    ensures LogInv(codec, RunLog(codec, s, actions))
    ensures Parsed(codec, s.file) <= Parsed(codec, RunLog(codec, s, actions).file)
    ensures forall e :: e in Acknowledged(codec, s, actions) ==>
      e.number > |Parsed(codec, s.file)| && Kept(Parsed(codec, RunLog(codec, s, actions).file), e)
    ensures Increasing(Acknowledged(codec, s, actions))
    decreases |actions|
  {
    hide Reliable, Parsed, Repaired, LogInv;
    if actions != [] {
      var t := Next(codec, s, actions[0]);
      StepKeepsLog(codec, s, actions[0]);
      RunKeepsLog(codec, t, actions[1..]);
    }
  }

  /**
   Over every run of appends, crashes, restarts and reads from an empty log: the readable events
   are numbered 1 to n, each acknowledged event is among them at its own number, the cached
   number is the last one in the file, and a repair changes nothing that is read.
   */
  lemma LogNeverLosesAnEvent(codec: Codec, actions: seq<LogAction>)
    requires Reliable(codec)
    ensures
      var t := RunLog(codec, Log([], None), actions);
      var events := Parsed(codec, t.file);
      && Numbered(events)
      && (forall e :: e in Acknowledged(codec, Log([], None), actions) ==> Kept(events, e))
      && Increasing(Acknowledged(codec, Log([], None), actions))
      && (t.cached.Some? ==> t.cached.value == LastNumber(events) == |events|)
      && Parsed(codec, Repaired(codec, t.file)) == events
  {
    hide Reliable, Parsed, Repaired;
    EmptyLog(codec);
    RunKeepsLog(codec, Log([], None), actions);
    RepairKeepsReading(codec, RunLog(codec, Log([], None), actions).file);
  }

  // ----- the store -----

  /** How far a load has come: `events` are read, and the file is repaired, up to `position`. */
  predicate Loading(codec: Codec, repair: bool, start: string, file: string, position: nat, events: seq<Event>) {
    && position <= |file| && (position < |file| ==> file == start)
    && Parsed(codec, start) == events + Parsed(codec, file[position..])
    && if repair then Repaired(codec, start) == file[..position] + Repaired(codec, file[position..]) else file == start
  }

  /** `readline`: the row that starts at a position. */
  function RawRow(file: string, position: nat): (raw: string)
    requires position < |file|
    ensures 0 < |raw| <= |file| - position
  {
    file[position..position + RowLength(file[position..])]
  }

  /** What that row holds. */
  function RowEvent(codec: Codec, file: string, position: nat): Option<Event>
    requires position < |file|
  {
    codec.parse(RawRow(file, position))
  }

  /** `truncate` at a position. */
  function CutAt(file: string, position: nat): string
    requires position <= |file|
  {
    file[..position]
  }

  /** A newline written at the end. */
  function WithNewline(file: string): (r: string)
    ensures |r| == |file| + 1
  {
    file + [NEWLINE]
  }

  predicate EndsRow(raw: string)
    requires raw != []
  {
    raw[|raw| - 1] == NEWLINE
  }

  /** One more row of a load. */
  lemma LoadedRow(codec: Codec, repair: bool, start: string, file: string, position: nat, events: seq<Event>)
    requires Loading(codec, repair, start, file, position, events) && position < |file|
    ensures
      var raw := RawRow(file, position);
      match RowEvent(codec, file, position)
      case None => true
      case Some(e) =>
        if repair && !EndsRow(raw)
        then Loading(codec, repair, start, WithNewline(file), position + |raw| + 1, events + [e])
        else Loading(codec, repair, start, file, position + |raw|, events + [e])
  {
    hide Parsed, Repaired;
    var rest := file[position..];
    var n := RowLength(rest);
    RowRead(codec, rest);
    EmptyFile(codec);
    assert file[position..position + n] == rest[..n] && file[position + n..] == rest[n..];
    assert events + [] == events && file[..position] + [] == file[..position];
    if codec.parse(rest[..n]).Some? {
      var e := codec.parse(rest[..n]).value;
      assert events + ([e] + Parsed(codec, rest[n..])) == events + [e] + Parsed(codec, rest[n..]);
      if repair && rest[n - 1] != NEWLINE {
        assert file[..position] + (rest + [NEWLINE]) == file + [NEWLINE];
        assert (file + [NEWLINE])[position + n + 1..] == [] == rest[n..];
      } else if repair {
        assert file[..position] + (rest[..n] + Repaired(codec, rest[n..])) ==
          file[..position + n] + Repaired(codec, rest[n..]);
      }
    }
  }

  lemma LoadBegins(codec: Codec, repair: bool, file: string)
    ensures Loading(codec, repair, file, file, 0, [])
  {
    assert file[0..] == file && file[..0] == [];
  }

  /** A load ends at the end of the file or at a row that does not parse, which a repair cuts off. */
  lemma LoadEnds(codec: Codec, repair: bool, start: string, file: string, position: nat, events: seq<Event>)
    requires Loading(codec, repair, start, file, position, events)
    requires position < |file| ==> RowEvent(codec, file, position).None?
    ensures Parsed(codec, start) == events
    ensures if repair then Repaired(codec, start) == (if position < |file| then CutAt(file, position) else file)
            else file == start
  {
    hide Parsed, Repaired;
    EmptyFile(codec);
    assert events + [] == events && file[..position] + [] == file[..position];
    if position < |file| {
      RowRead(codec, file[position..]);
      assert RawRow(file, position) == file[position..][..RowLength(file[position..])];
    } else {
      assert file[position..] == [] && file[..position] == file;
    }
  }

  /** The event part of `JobStore` for one job: `events.jsonl` and the `_event_seq` entry. */
  class JobEvents {
    const codec: Codec
    var file: string
    var cached: Option<nat>

    constructor (codec: Codec)
      ensures this.codec == codec && file == [] && cached == None
    {
      this.codec, file, cached := codec, [], None;
    }

    function State(): Log
      reads this
    {
      Log(file, cached)
    }

    /** `_load_events`: rows are parsed in place; a repair cuts a bad tail and restores a lost newline. */
    method LoadEvents(repairTail: bool) returns (events: seq<Event>)
      modifies this`file
      ensures events == Parsed(codec, old(file))
      ensures file == if repairTail then Repaired(codec, old(file)) else old(file)
    {
      hide Parsed, Repaired, Loading, RawRow, RowEvent, CutAt, WithNewline, EndsRow;
      events := [];
      var position: nat := 0;
      LoadBegins(codec, repairTail, file);
      while position < |file| && RowEvent(codec, file, position).Some?
        invariant Loading(codec, repairTail, old(file), file, position, events)
        decreases |file| - position
      {
        LoadedRow(codec, repairTail, old(file), file, position, events);
        var raw := RawRow(file, position);
        events := events + [RowEvent(codec, file, position).value];
        position := position + |raw|;
        if repairTail && !EndsRow(raw) {
          file, position := WithNewline(file), position + 1;
        }
      }
      LoadEnds(codec, repairTail, old(file), file, position, events);
      if repairTail && position < |file| {
        file := CutAt(file, position);
      }
    }

    /** `_last_event_seq`. */
    method LastEventSeq() returns (last: nat)
      modifies this
      ensures State() == Opened(codec, old(State())) && cached == Some(last)
    {
      if cached.Some? {
        return cached.value;
      }
      var events := LoadEvents(true);
      last := if events != [] then events[|events| - 1].number else 0;
      cached := Some(last);
    }

    /** `append_event`. */
    method AppendEvent(body: string) returns (event: Event)
      modifies this
      ensures State() == Next(codec, old(State()), Append(body)) && event == NextEvent(codec, old(State()), body)
      ensures Reliable(codec) && LogInv(codec, old(State())) ==>
        && event == Event(|Parsed(codec, old(file))| + 1, body)
        && Parsed(codec, file) == Parsed(codec, old(file)) + [event] && LogInv(codec, State())
    {
      hide Reliable, LogInv, Parsed;
      if Reliable(codec) && LogInv(codec, State()) {
        StepKeepsLog(codec, State(), Append(body));
      }
      var last := LastEventSeq();
      event := Event(last + 1, body);
      file := file + codec.encode(event) + [NEWLINE];
      assert file == Opened(codec, old(State())).file + Payload(codec, event);
      cached := Some(last + 1);
    }

    /** `read_events`. */
    method ReadEvents() returns (events: seq<Event>)
      modifies this`file
      ensures file == old(file) && events == Parsed(codec, file)
    {
      events := LoadEvents(false);
    }
  }

  // ----- such an encoding exists -----

  /** A bracketed row: the number, and the body with its newlines and brackets escaped. */
  function Escaped(body: string): string {
    if body == [] then []
    else
      (match body[0]
       case '\\' => "\\\\"
       case '\n' => "\\n"
       case '}' => "\\b"
       case c => [c])
      + Escaped(body[1..])
  }

  function Bracketed(e: Event): string {
    "{" + Decimal(e.number) + ":" + Escaped(e.body) + "}"
  }

  lemma {:induction false} EscapedIsPlain(body: string)
    ensures NEWLINE !in Escaped(body) && '}' !in Escaped(body)
  {
    if body != [] {
      EscapedIsPlain(body[1..]);
    }
  }

  lemma {:induction false} EscapedIsInjective(a: string, b: string)
    requires Escaped(a) == Escaped(b)
    ensures a == b
  {
    if a != [] && b != [] {
      var width := if a[0] == '\\' || a[0] == '\n' || a[0] == '}' then 2 else 1;
      assert Escaped(a)[0] == Escaped(b)[0] && (width == 2 ==> Escaped(a)[1] == Escaped(b)[1]);
      assert a[0] == b[0];
      assert Escaped(a)[width..] == Escaped(a[1..]) && Escaped(b)[width..] == Escaped(b[1..]);
      EscapedIsInjective(a[1..], b[1..]);
      assert a == [a[0]] + a[1..] && b == [b[0]] + b[1..];
    }
  }

  /** Two numerals followed by a colon and a text are told apart. */
  lemma {:induction false} NumeralsEndAlike(m: string, s: string, n: string, t: string)
    requires forall i :: 0 <= i < |m| ==> IsDigit(m[i])
    requires forall i :: 0 <= i < |n| ==> IsDigit(n[i])
    requires m + ":" + s == n + ":" + t
    ensures m == n && s == t
  {
    var left, right := m + ":" + s, n + ":" + t;
    assert left[0] == right[0];
    if m == [] {
      assert n == [] by {
        assert left[0] == ':';
      }
      assert left[1..] == s && right[1..] == t;
    } else {
      assert n != [] by {
        assert left[0] == m[0] && IsDigit(m[0]);
      }
      assert left[1..] == m[1..] + ":" + s && right[1..] == n[1..] + ":" + t;
      NumeralsEndAlike(m[1..], s, n[1..], t);
      assert m == [m[0]] + m[1..] && n == [n[0]] + n[1..];
    }
  }

  lemma BracketedIsInjective(e: Event, f: Event)
    requires Bracketed(e) == Bracketed(f)
    ensures e == f
  {
    hide Decimal, Escaped;
    var m, n, s, t := Decimal(e.number), Decimal(f.number), Escaped(e.body), Escaped(f.body);
    assert Bracketed(e)[1..|Bracketed(e)| - 1] == m + ":" + s;
    assert Bracketed(f)[1..|Bracketed(f)| - 1] == n + ":" + t;
    NumeralsEndAlike(m, s, n, t);
    DecimalRoundTrip(e.number);
    DecimalRoundTrip(f.number);
    EscapedIsInjective(e.body, f.body);
  }

  predicate Written(row: string, e: Event) {
    row == Bracketed(e) || row == Bracketed(e) + [NEWLINE]
  }

  /** The row without its newline. */
  lemma WrittenWithoutNewline(row: string, e: Event)
    requires Written(row, e)
    ensures row != [] && Bracketed(e) == if row[|row| - 1] == NEWLINE then row[..|row| - 1] else row
  {
    BracketedShape(e);
    if row != Bracketed(e) {
      assert row[..|row| - 1] == Bracketed(e);
    }
  }

  ghost function ReadBracketed(row: string): Option<Event> {
    if exists e :: Written(row, e) then
      var e :| Written(row, e);
      Some(e)
    else None
  }

  lemma BracketedShape(e: Event)
    ensures NEWLINE !in Bracketed(e) && Bracketed(e) != []
    ensures Bracketed(e)[|Bracketed(e)| - 1] == '}' && '}' !in Bracketed(e)[..|Bracketed(e)| - 1]
  {
    EscapedIsPlain(e.body);
    var row, number := Bracketed(e), Decimal(e.number);
    assert row[..|row| - 1] == "{" + number + ":" + Escaped(e.body);
    assert NEWLINE !in number && '}' !in number;
  }

  lemma WrittenOnce(row: string, e: Event)
    requires Written(row, e)
    ensures ReadBracketed(row) == Some(e)
  {
    var f :| Written(row, f) && ReadBracketed(row) == Some(f);
    WrittenWithoutNewline(row, e);
    WrittenWithoutNewline(row, f);
    BracketedIsInjective(e, f);
  }

  lemma CutRowIsNotWritten(e: Event, k: nat, f: Event)
    requires k < |Bracketed(e)|
    ensures !Written(Bracketed(e)[..k], f)
  {
    BracketedShape(e);
    BracketedShape(f);
    var row := Bracketed(e)[..k];
    assert row <= Bracketed(e)[..|Bracketed(e)| - 1];
    assert '}' !in row && '}' in Bracketed(f) && '}' in Bracketed(f) + [NEWLINE];
  }

  lemma ReliableCodecExists()
    ensures Reliable(Codec(Bracketed, ReadBracketed))
  {
    forall e
      ensures Bracketed(e) != [] && NEWLINE !in Bracketed(e) && ReadBracketed(Bracketed(e)) == Some(e)
    {
      BracketedShape(e);
      WrittenOnce(Bracketed(e), e);
    }
    forall e, k | 0 <= k < |Bracketed(e)|
      ensures ReadBracketed(Bracketed(e)[..k]).None?
    {
      forall f
        ensures !Written(Bracketed(e)[..k], f)
      {
        CutRowIsNotWritten(e, k, f);
      }
    }
    forall row | NEWLINE !in row
      ensures ReadBracketed(row + [NEWLINE]) == ReadBracketed(row)
    {
      if e :| Written(row + [NEWLINE], e) {
        WrittenWithoutNewline(row + [NEWLINE], e);
        assert (row + [NEWLINE])[..|row|] == row;
        WrittenOnce(row, e);
        WrittenOnce(row + [NEWLINE], e);
      } else if e :| Written(row, e) {
        WrittenWithoutNewline(row, e);
        assert Written(row + [NEWLINE], e);
      }
    }
  }
}

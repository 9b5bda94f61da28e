/** Reading and searching a job's logs in bounded slices (`training/incidents/log_tool.py`). */
module LogSearch {
  import opened Common
  import opened Utf8

  /** How many bytes one read may return. */
  type ReadSize = n: int | n > 0 witness 1

  // ----- searching -----

  predicate MatchesAt(data: seq<Byte>, query: seq<Byte>, i: int) {
    0 <= i && i + |query| <= |data| && data[i..i + |query|] == query
  }

  /** The first match at or after an offset, as a naive scan finds it. */
  ghost predicate IsFirstMatch(data: seq<Byte>, query: seq<Byte>, offset: int, found: Option<nat>) {
    match found
    case None => forall i :: offset <= i ==> !MatchesAt(data, query, i)
    case Some(m) =>
      offset <= m && MatchesAt(data, query, m) && forall i :: offset <= i < m ==> !MatchesAt(data, query, i)
  }

  /** `bytes.find`. */
  method Find(window: seq<Byte>, query: seq<Byte>) returns (found: Option<nat>)
    ensures IsFirstMatch(window, query, 0, found)
  {
    var i := 0;
    while i + |query| <= |window|
      invariant forall j :: 0 <= j < i ==> !MatchesAt(window, query, j)
    {
      if window[i..i + |query|] == query {
        return Some(i);
      }
      i := i + 1;
    }
    found := None;
  }

  /** A match in a window of the file is a match in the file. */
  lemma WindowMatches(data: seq<Byte>, query: seq<Byte>, from: nat, to: nat, i: int)
    requires from <= to <= |data| && 0 <= i
    ensures MatchesAt(data[from..to], query, i) <==> from + i + |query| <= to && MatchesAt(data, query, from + i)
  {
    if i + |query| <= to - from {
      SliceOfSlice(data, from, to, i, i + |query|);
    }
  }

  /**
   `_search_file`: chunk by chunk, keeping an overlap one byte shorter than the query. Each
   read may return any positive number of bytes; the result is that of a scan of the whole file.
   */
  method SearchFile(data: Option<seq<Byte>>, offset: nat, query: seq<Byte>, chunk: nat -> ReadSize)
    returns (found: Option<nat>)
    requires query != []
    ensures data.None? ==> found.None?
    ensures data.Some? ==> IsFirstMatch(data.value, query, offset, found)
  {
    if data.None? {
      return None;
    }
    var file := data.value;
    var overlap: seq<Byte> := [];
    var position := if offset <= |file| then offset else |file|;
    var begin := position;
    var turn := 0;
    while position < |file|
      invariant begin <= position <= |file| && |overlap| <= position - begin
      invariant overlap == file[position - |overlap|..position]
      invariant |overlap| == if position - begin < |query| - 1 then position - begin else |query| - 1
      invariant forall i :: begin <= i && i + |query| <= position ==> !MatchesAt(file, query, i)
    {
      var size := chunk(turn);
      turn := turn + 1;
      var next := if position + size <= |file| then position + size else |file|;
      var raw := file[position..next];
      var window := overlap + raw;
      ghost var from := position - |overlap|;
      assert window == file[from..next];
      var hit := Find(window, query);
      forall i: int | begin <= i && i + |query| <= next && (hit.Some? ==> i < from + hit.value)
        ensures !MatchesAt(file, query, i)
      {
        if i + |query| > position {
          WindowMatches(file, query, from, next, i - from);
        }
      }
      if hit.Some? {
        WindowMatches(file, query, from, next, hit.value);
        return Some(position - |overlap| + hit.value);
      }
      var overlapSize := |query| - 1;
      overlap :=
        if overlapSize == 0 then [] else if overlapSize <= |window| then window[|window| - overlapSize..] else window;
      position := next;
    }
    found := None;
  }

  // ----- the tool -----

  const MAX_RESULT_BYTES := 32 * 1024

  datatype Stream = Stdout | Stderr
  datatype Mode = TailMode | RangeMode | SearchMode

  /** What pydantic lets through: a non-negative offset, a limit within bounds, a query that is not empty. */
  datatype Params = Params(stream: Stream, mode: Mode, offset: nat, limit: nat, query: Option<seq<Byte>>)

  predicate Valid(p: Params) {
    1 <= p.limit <= MAX_RESULT_BYTES && (p.query.Some? ==> p.query.value != [])
  }

  datatype LogSlice = LogSlice(start: nat, end: nat, content: seq<Byte>)
  datatype Reference = Reference(stream: Stream, start: nat, end: nat)
  datatype Outcome =
    | QueryRequired
    | Read(matchOffset: Option<nat>, slice: Option<LogSlice>, reference: Option<Reference>)

  /** Where a search slice begins. */
  function SearchStart(offset: nat, found: nat, limit: nat, size: nat): nat {
    var start := if found - limit / 2 > offset then found - limit / 2 else offset;
    var last := if size > limit then size - limit else 0;
    if start <= last then start else last
  }

  /** The slice begins at or before the match, and holds all of it when the query leaves room for half the limit. */
  lemma SearchSliceHoldsMatch(offset: nat, found: nat, limit: nat, size: nat, length: nat)
    requires limit > 0 && offset <= found && found + length <= size
    ensures SearchStart(offset, found, limit, size) <= found
    ensures
      var start := SearchStart(offset, found, limit, size);
      var wished := if offset + limit / 2 <= found then found - limit / 2 else offset;
      && (start + limit <= size || (start == 0 && size < limit))
      && (start == wished || (start < wished && (start + limit == size || (start == 0 && size < limit))))
    ensures length <= limit - limit / 2 ==> found + length <= SearchStart(offset, found, limit, size) + limit
    ensures
      var back := if limit / 2 <= found - offset then limit / 2 else found - offset;
      found + length <= SearchStart(offset, found, limit, size) + limit <==>
        length + back <= limit || found - back + limit > size
  {
  }

  /** The log files of one attempt, as `FileJobLogReader` reads them. */
  class ReadJobLogTool {
    const files: map<Stream, seq<Byte>>
    const chunk: nat -> ReadSize
    var evidence: set<Reference>

    constructor (files: map<Stream, seq<Byte>>, chunk: nat -> ReadSize)
      ensures this.files == files && evidence == {}
    {
      this.files, this.chunk, evidence := files, chunk, {};
    }

    /** A reference names bytes of its stream's log. */
    predicate Observed(r: Reference) {
      r.stream in files && r.start <= r.end <= |files[r.stream]|
    }

    /** `_read_slice`: at most `limit` bytes from `start` on. */
    method ReadSlice(stream: Stream, start: nat, limit: nat) returns (slice: LogSlice)
      requires stream in files && start <= |files[stream]| && limit <= MAX_RESULT_BYTES
      ensures slice.start == start && slice.end == if start + limit <= |files[stream]| then start + limit
                                                   else |files[stream]|
      ensures slice.content == Replaced(files[stream][slice.start..slice.end])
    {
      var data := files[stream];
      var end := if start + limit <= |data| then start + limit else |data|;
      slice := LogSlice(start, end, Replaced(data[start..end]));
    }

    /**
     Every slice is the decoding of exactly the bytes its reference names, within the limit; a
     search returns the first match from the offset on. Only the new reference is added.
     */
    method Invoke(p: Params) returns (r: Outcome)
      requires Valid(p) && p.stream in files
      modifies this`evidence
      ensures r.QueryRequired? <==> p.mode.SearchMode? && p.query.None?
      ensures r.QueryRequired? ==> evidence == old(evidence)
      ensures r.Read? ==> r.slice.Some? == r.reference.Some?
      ensures r.Read? ==> evidence == old(evidence) + if r.reference.Some? then {r.reference.value} else {}
      ensures r.Read? && r.slice.Some? ==>
        var s := r.slice.value;
        && r.reference == Some(Reference(p.stream, s.start, s.end)) && Observed(r.reference.value)
        && s.end - s.start <= p.limit && s.content == Replaced(files[p.stream][s.start..s.end])
      ensures r.Read? && p.mode.TailMode? ==> r.slice.Some? && r.slice.value.end == |files[p.stream]|
      ensures r.Read? && p.mode.TailMode? && r.slice.value.start > 0 ==>
        r.slice.value.end - r.slice.value.start == p.limit
      ensures r.Read? && p.mode.RangeMode? ==>
        r.slice.Some? && r.slice.value.start == if p.offset <= |files[p.stream]| then p.offset else |files[p.stream]|
      ensures r.Read? && r.slice.Some? && r.slice.value.end < |files[p.stream]| ==>
        r.slice.value.end - r.slice.value.start == p.limit
      ensures r.Read? && p.mode.SearchMode? ==> IsFirstMatch(files[p.stream], p.query.value, p.offset, r.matchOffset)
      ensures r.Read? && p.mode.SearchMode? ==> r.slice.Some? == r.matchOffset.Some?
      ensures r.Read? && p.mode.SearchMode? && r.slice.Some? ==>
        r.slice.value.start == SearchStart(p.offset, r.matchOffset.value, p.limit, |files[p.stream]|)
        <= r.matchOffset.value
      ensures r.Read? && p.mode.SearchMode? && r.slice.Some? && |p.query.value| <= p.limit - p.limit / 2 ==>
        r.matchOffset.value + |p.query.value| <= r.slice.value.end
    {
      var data := files[p.stream];
      var matchOffset, slice := None, None;
      match p.mode {
        case TailMode =>
          var s := ReadSlice(p.stream, if |data| > p.limit then |data| - p.limit else 0, p.limit);
          slice := Some(s);
        case RangeMode =>
          var s := ReadSlice(p.stream, if p.offset <= |data| then p.offset else |data|, p.limit);
          slice := Some(s);
        case SearchMode =>
          if p.query.None? {
            return QueryRequired;
          }
          matchOffset := SearchFile(Some(data), p.offset, p.query.value, chunk);
          if matchOffset.Some? {
            SearchSliceHoldsMatch(p.offset, matchOffset.value, p.limit, |data|, |p.query.value|);
            var s := ReadSlice(p.stream, SearchStart(p.offset, matchOffset.value, p.limit, |data|), p.limit);
            slice := Some(s);
          }
      }
      var reference := None;
      if slice.Some? {
        reference := Some(Reference(p.stream, slice.value.start, slice.value.end));
        evidence := evidence + {reference.value};
      }
      r := Read(matchOffset, slice, reference);
    }
  }
}

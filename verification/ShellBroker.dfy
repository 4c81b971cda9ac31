/** The shell broker's output log: a ring of chunks in memory, an append-only file, and a cursor-based reader. */
module ShellBroker {
  import opened Text

  const SESSION_OUTPUT_MAX_CHARS := 12000
  const SESSION_OUTPUT_MAX_CHUNKS := 256

  datatype Stream = Stdout | Stderr | Pty

  datatype Chunk = Chunk(sequence: int, stream: Stream, text: string)

  function Texts(chunks: seq<Chunk>): seq<string> {
    if chunks == [] then [] else [chunks[0].text] + Texts(chunks[1..])
  }

  function TextOf(chunks: seq<Chunk>): string {
    Join(Texts(chunks))
  }

  /** The last `n` elements, or all of them. */
  function Last<T>(s: seq<T>, n: nat): seq<T> {
    if |s| <= n then s else s[|s| - n..]
  }

  function LastChars(s: string): string {
    Last(s, SESSION_OUTPUT_MAX_CHARS)
  }

  function LastChunks(log: seq<Chunk>): seq<Chunk> {
    Last(log, SESSION_OUTPUT_MAX_CHUNKS)
  }

  function AppendCappedText(current: string, text: string): (r: string)
    ensures |r| <= SESSION_OUTPUT_MAX_CHARS
  {
    var combined := current + text;
    if |combined| <= SESSION_OUTPUT_MAX_CHARS then combined else NegativeSlice(combined, SESSION_OUTPUT_MAX_CHARS)
  }

  /** The last 12000 characters of a text, or all of it. */
  predicate IsTail(tail: string, whole: string) {
    |tail| == (if |whole| < 12000 then |whole| else 12000) && tail == whole[|whole| - |tail|..]
  }

  lemma CappedIsTail(current: string, text: string)
    ensures IsTail(AppendCappedText(current, text), current + text)
  {
  }

  /** The ring holds the last 256 chunks, or all of them. */
  lemma RingIsTail(log: seq<Chunk>)
    ensures |LastChunks(log)| == (if |log| < 256 then |log| else 256)
    ensures LastChunks(log) == log[|log| - |LastChunks(log)|..]
  {
  }

  /** Keeping the last `n` after every append loses nothing that keeping them once at the end would not. */
  lemma LastOfAppend<T>(all: seq<T>, more: seq<T>, n: nat)
    ensures Last(Last(all, n) + more, n) == Last(all + more, n)
  {
    var kept := Last(all, n);
    var dropped := |all| - |kept|;
    assert kept + more == (all + more)[dropped..];
  }

  lemma CappingCommutes(all: string, text: string)
    ensures AppendCappedText(LastChars(all), text) == LastChars(all + text)
  {
    hide Last;
    LastOfAppend(all, text, SESSION_OUTPUT_MAX_CHARS);
    CappedIsLast(LastChars(all), text);
  }

  lemma CappedIsLast(current: string, text: string)
    ensures AppendCappedText(current, text) == LastChars(current + text)
  {
  }

  /** Sequences are 1..n without a gap. */
  predicate Numbered(log: seq<Chunk>) {
    forall k | 0 <= k < |log| :: log[k].sequence == k + 1
  }

  predicate OnStdout(chunk: Chunk) { chunk.stream.Stdout? || chunk.stream.Pty? }

  predicate OnStderr(chunk: Chunk) { chunk.stream.Stderr? }

  lemma TextOfAppend(left: seq<Chunk>, right: seq<Chunk>)
    ensures TextOf(left + right) == TextOf(left) + TextOf(right)
  {
    TextsOfAppend(left, right);
    JoinAppend(Texts(left), Texts(right));
  }

  lemma {:induction false} TextsOfAppend(left: seq<Chunk>, right: seq<Chunk>)
    ensures Texts(left + right) == Texts(left) + Texts(right)
  {
    if left == [] {
      assert left + right == right;
    } else {
      TextsOfAppend(left[1..], right);
      assert (left + right)[1..] == left[1..] + right && (left + right)[0] == left[0];
    }
  }

  lemma TextOfOne(chunk: Chunk)
    ensures TextOf([chunk]) == chunk.text
  {
    assert [chunk][1..] == [] && Texts([chunk]) == [chunk.text] && [chunk.text][1..] == [];
    assert Join([chunk.text]) == chunk.text + Join([]);
  }

  // ---- reading after a sequence --------------------------------------------------------------------

  function Newer(after: int): Chunk -> bool {
    (chunk: Chunk) => chunk.sequence > after
  }

  function Relevant(chunks: seq<Chunk>, after: int): seq<Chunk> {
    Keep(chunks, Newer(after))
  }

  function Limited(text: string, maxChars: int): string {
    if |text| > maxChars then NegativeSlice(text, maxChars) else text
  }

  function MemoryRead(chunks: seq<Chunk>, after: int, maxChars: int): (string, int) {
    var relevant := Relevant(chunks, after);
    (Limited(TextOf(relevant), maxChars), if relevant == [] then after else relevant[|relevant| - 1].sequence)
  }

  function FileLatest(log: seq<Chunk>, after: int): int {
    if log == [] then after
    else
      var before, sequence := FileLatest(log[..|log| - 1], after), log[|log| - 1].sequence;
      if sequence <= after && before > sequence then before else sequence
  }

  function FileRead(log: seq<Chunk>, after: int, maxChars: int): (string, int) {
    (Limited(TextOf(Relevant(log, after)), maxChars), FileLatest(log, after))
  }

  function OutputSince(ring: seq<Chunk>, log: seq<Chunk>, after: int, maxChars: int): (string, int) {
    if ring != [] then MemoryRead(ring, after, maxChars) else FileRead(log, after, maxChars)
  }

  lemma {:induction false} RelevantIsSuffix(chunks: seq<Chunk>, first: int, after: int)
    requires forall k | 0 <= k < |chunks| :: chunks[k].sequence == first + k
    ensures Relevant(chunks, after) ==
            chunks[if after < first then 0 else if after - first + 1 > |chunks| then |chunks| else after - first + 1..]
  {
    if chunks == [] {
    } else {
      var last := |chunks| - 1;
      var front := chunks[..last];
      RelevantIsSuffix(front, first, after);
      assert chunks == front + [chunks[last]];
      assert Relevant(chunks, after) ==
        Relevant(front, after) + if chunks[last].sequence > after then [chunks[last]] else [];
      hide Keep, Relevant;
      if after >= first + last {
        assert Relevant(front, after) == [];
      } else {
        var start := if after < first then 0 else after - first + 1;
        assert front[start..] + [chunks[last]] == chunks[start..];
      }
    }
  }

  lemma {:induction false} FileLatestNumbered(log: seq<Chunk>, after: int)
    requires Numbered(log)
    ensures FileLatest(log, after) == if |log| > after then (if |log| == 0 then after else |log|) else after
  {
    if log == [] {
    } else {
      FileLatestNumbered(log[..|log| - 1], after);
    }
  }

  function RingStart(log: seq<Chunk>): (start: nat)
    ensures start <= |log| && (log != [] ==> start < |log|)
    ensures start == 0 || start == |log| - SESSION_OUTPUT_MAX_CHUNKS
  {
    if |log| <= SESSION_OUTPUT_MAX_CHUNKS then 0 else |log| - SESSION_OUTPUT_MAX_CHUNKS
  }

  lemma RingIsSuffix(log: seq<Chunk>)
    ensures LastChunks(log) == log[RingStart(log)..]
  {
  }

  lemma DropTwice<T>(s: seq<T>, m: nat, n: nat)
    requires m + n <= |s|
    ensures s[m..][n..] == s[m + n..]
  {
  }

  lemma LastOfDrop<T>(s: seq<T>, from: nat)
    requires from < |s|
    ensures |s[from..]| == |s| - from && s[from..][|s| - from - 1] == s[|s| - 1]
  {
  }

  lemma DropNumbered(log: seq<Chunk>, from: nat)
    requires Numbered(log) && from <= |log|
    ensures forall k | 0 <= k < |log[from..]| :: log[from..][k].sequence == from + 1 + k
  {
  }

  /** Where the unread part of the ring starts in the log, for any cursor. */
  function RingFrom(log: seq<Chunk>, after: int): (from: nat)
    ensures from <= |log| && (log != [] && after < |log| ==> from < |log|)
  {
    if after >= |log| then |log| else if after < RingStart(log) then RingStart(log) else after
  }

  lemma RelevantInRing(log: seq<Chunk>, after: int)
    requires Numbered(log)
    ensures Relevant(LastChunks(log), after) == log[RingFrom(log, after)..]
  {
    hide LastChunks, Relevant, Numbered, RingStart;
    var start := RingStart(log);
    RingIsSuffix(log);
    DropNumbered(log, start);
    RelevantIsSuffix(log[start..], start + 1, after);
    if after >= |log| {
      DropTwice(log, start, |log| - start);
    } else if after >= start {
      DropTwice(log, start, after - start);
    }
  }

  lemma RelevantInLog(log: seq<Chunk>, after: int)
    requires Numbered(log) && after >= |log| - SESSION_OUTPUT_MAX_CHUNKS
    ensures Relevant(log, after) == log[RingFrom(log, after)..]
  {
    hide LastChunks, Relevant;
    RelevantIsSuffix(log, 1, after);
  }

  lemma DropEndsNumbered(log: seq<Chunk>, from: nat)
    requires Numbered(log) && from < |log|
    ensures log[from..] != [] && log[from..][|log[from..]| - 1].sequence == |log|
  {
    assert log[|log| - 1].sequence == |log|;
    hide Numbered;
    LastOfDrop(log, from);
  }

  /** The cursor a read hands back: the sequence of the last chunk, or the cursor it was given. */
  lemma ReadMovesToEnd(log: seq<Chunk>, after: int)
    requires Numbered(log) && log != []
    ensures var unread := log[RingFrom(log, after)..];
            (if unread == [] then after else unread[|unread| - 1].sequence) == if after < |log| then |log| else after
  {
    hide Numbered;
    if after < |log| {
      hide RingFrom;
      DropEndsNumbered(log, RingFrom(log, after));
    } else {
      assert log[|log|..] == [];
    }
  }

  /** Both branches report the same latest sequence for every cursor, and the same text for every cursor that is
      not older than the ring. */
  lemma RingRefinesLog(log: seq<Chunk>, after: int, maxChars: int)
    requires Numbered(log) && log != []
    ensures var memory, file := MemoryRead(LastChunks(log), after, maxChars), FileRead(log, after, maxChars);
            memory.1 == file.1 && (after >= |log| - SESSION_OUTPUT_MAX_CHUNKS ==> memory.0 == file.0)
  {
    hide Relevant, TextOf, Limited, LastChunks, FileLatest, Numbered, RingFrom;
    RelevantInRing(log, after);
    ReadMovesToEnd(log, after);
    FileLatestNumbered(log, after);
    RingNotEmpty(log);
    if after >= |log| - SESSION_OUTPUT_MAX_CHUNKS {
      RelevantInLog(log, after);
    }
  }

  lemma RingNotEmpty(log: seq<Chunk>)
    ensures LastChunks(log) == [] <==> log == []
  {
  }

  lemma {:induction false} EveryChunkHasText(chunks: seq<Chunk>)
    requires forall k | 0 <= k < |chunks| :: chunks[k].text != ""
    ensures |TextOf(chunks)| >= |chunks|
  {
    if chunks == [] {
    } else {
      EveryChunkHasText(chunks[1..]);
    }
  }

  /** A cursor older than the ring gets the same text exactly when the ring alone fills the character limit. */
  lemma OldCursorReads(log: seq<Chunk>, after: int, maxChars: int)
    requires Numbered(log) && 0 <= after < |log| - SESSION_OUTPUT_MAX_CHUNKS && maxChars > 0
    requires forall k | 0 <= k < |log| :: log[k].text != ""
    ensures MemoryRead(LastChunks(log), after, maxChars).0 == FileRead(log, after, maxChars).0 <==>
            |TextOf(LastChunks(log))| >= maxChars
  {
    hide TextOf, Keep, Limited;
    var ring := LastChunks(log);
    var dropped := |log| - |ring|;
    assert ring == log[dropped..];
    RelevantIsSuffix(log, 1, after);
    RelevantIsSuffix(ring, dropped + 1, after);
    assert log[after..] == log[after..dropped] + ring;
    TextOfAppend(log[after..dropped], ring);
    EveryChunkHasText(log[after..dropped]);
    LimitedSuffix(TextOf(log[after..dropped]), TextOf(ring), maxChars);
  }

  lemma LimitedSuffix(older: string, recent: string, maxChars: int)
    requires older != "" && maxChars > 0
    ensures Limited(older + recent, maxChars) == Limited(recent, maxChars) <==> |recent| >= maxChars
  {
    if |recent| >= maxChars {
      assert (older + recent)[|older + recent| - maxChars..] == recent[|recent| - maxChars..];
    }
  }

  // ---- the entry in place --------------------------------------------------------------------------

  class BrokerEntry {
    var stdoutBuffer: string
    var stderrBuffer: string
    var outputChunks: seq<Chunk>
    var nextSequence: int
    var outputSequence: int
    var recentOutput: string
    var recentStream: Option<Stream>
    /** The lines of output.jsonl. */
    var log: seq<Chunk>

    /** The broker that started the entry still runs: the ring follows the file. */
    ghost predicate Live()
      reads this
    {
      outputChunks == LastChunks(log) && nextSequence == |log| + 1
    }

    /** A later broker loaded the entry: the ring is empty and numbering is back at its default. */
    ghost predicate Reloaded()
      reads this
    {
      outputChunks == [] && nextSequence == 1
    }

    ghost predicate Valid()
      reads this
    {
      && Numbered(log)
      && (Live() || Reloaded())
      && outputSequence == |log|
      && stdoutBuffer == LastChars(TextOf(Keep(log, OnStdout)))
      && stderrBuffer == LastChars(TextOf(Keep(log, OnStderr)))
      && (log != [] ==> recentOutput == log[|log| - 1].text && recentStream == Some(log[|log| - 1].stream))
    }

    /** Starting an entry keeps the lines an earlier entry of the same id left in the file. */
    constructor (existing: seq<Chunk>)
      ensures log == existing && outputChunks == [] && nextSequence == 1
      ensures existing == [] ==> Valid() && Live()
    {
      stdoutBuffer, stderrBuffer, outputChunks, log := "", "", [], existing;
      nextSequence, outputSequence, recentOutput, recentStream := 1, 0, "", None;
    }

    /** `_load_existing_entries`: everything the sidecar and the file hold, and an empty ring. */
    constructor Reload(saved: BrokerEntry)
      requires saved.Valid()
      ensures Valid() && Reloaded() && log == saved.log && outputSequence == saved.outputSequence
      ensures stdoutBuffer == saved.stdoutBuffer && stderrBuffer == saved.stderrBuffer
      ensures recentOutput == saved.recentOutput && recentStream == saved.recentStream
    {
      stdoutBuffer, stderrBuffer, outputChunks, log := saved.stdoutBuffer, saved.stderrBuffer, [], saved.log;
      nextSequence, outputSequence := 1, saved.outputSequence;
      recentOutput, recentStream := saved.recentOutput, saved.recentStream;
    }

    /** Only the capture tasks of the broker that started the process append. */
    method AppendOutput(stream: Stream, text: string)
      requires Valid() && Live()
      modifies this
      ensures Valid() && Live() && log == old(log) + [Chunk(|old(log)| + 1, stream, text)]
      ensures stream != Stderr ==> IsTail(stdoutBuffer, old(stdoutBuffer) + text) && stderrBuffer == old(stderrBuffer)
      ensures stream == Stderr ==> IsTail(stderrBuffer, old(stderrBuffer) + text) && stdoutBuffer == old(stdoutBuffer)
      ensures recentOutput == text && recentStream == Some(stream) && outputSequence == |log|
    {
      CappedIsTail(stdoutBuffer, text);
      CappedIsTail(stderrBuffer, text);
      hide Keep, TextOf, LastChars, AppendCappedText, Last, IsTail;
      var chunk := Chunk(nextSequence, stream, text);
      ghost var before := log;
      BufferAppend(before, chunk, OnStdout);
      BufferAppend(before, chunk, OnStderr);
      LastOfAppend(before, [chunk], SESSION_OUTPUT_MAX_CHUNKS);
      if stream == Stdout || stream == Pty {
        stdoutBuffer := AppendCappedText(stdoutBuffer, text);
      }
      if stream == Stderr {
        stderrBuffer := AppendCappedText(stderrBuffer, text);
      }
      RingCut(outputChunks + [chunk]);
      outputChunks := outputChunks + [chunk];
      nextSequence := nextSequence + 1;
      outputSequence := chunk.sequence;
      recentOutput := text;
      recentStream := Some(stream);
      if |outputChunks| > SESSION_OUTPUT_MAX_CHUNKS {
        outputChunks := outputChunks[|outputChunks| - SESSION_OUTPUT_MAX_CHUNKS..];
      }
      log := log + [chunk];
    }

    method OutputSinceSequence(after: int, maxChars: int) returns (text: string, latest: int)
      ensures (text, latest) == OutputSince(outputChunks, log, after, maxChars)
    {
      if outputChunks != [] {
        var relevant := Keep(outputChunks, Newer(after));
        text := TextOf(relevant);
        if |text| > maxChars {
          text := NegativeSlice(text, maxChars);
        }
        latest := if relevant != [] then relevant[|relevant| - 1].sequence else after;
        return;
      }
      var parts: seq<string> := [];
      latest := after;
      for k := 0 to |log|
        invariant parts == Texts(Relevant(log[..k], after))
        invariant latest == FileLatest(log[..k], after)
      {
        assert log[..k + 1] == log[..k] + [log[k]] && log[..k + 1][..k] == log[..k];
        var sequence := log[k].sequence;
        KeptLast(log[..k], log[k], Newer(after));
        TextsOfAppend(Relevant(log[..k], after), [log[k]]);
        assert Texts([log[k]]) == [log[k].text];
        if sequence <= after {
          latest := if latest >= sequence then latest else sequence;
          continue;
        }
        parts := parts + [log[k].text];
        latest := sequence;
      }
      assert log[..|log|] == log;
      text := Join(parts);
      if |text| > maxChars {
        text := NegativeSlice(text, maxChars);
      }
    }

    /** The `read` request: an absent or zero argument takes its default. */
    method Read(afterSequence: Option<int>, maxOutputChars: Option<int>) returns (text: string, latest: int)
      requires Valid()
      ensures var after := afterSequence.GetOr(0);
              var limit := if maxOutputChars.GetOr(0) == 0 then 12000 else maxOutputChars.value;
              latest == FileRead(log, after, limit).1
              && (after >= |log| - 256 || Reloaded() ==> text == FileRead(log, after, limit).0)
    {
      var after := if afterSequence.Some? then afterSequence.value else 0;
      var limit := SESSION_OUTPUT_MAX_CHARS;
      if maxOutputChars.Some? && maxOutputChars.value != 0 {
        limit := maxOutputChars.value;
      }
      text, latest := OutputSinceSequence(after, limit);
      if outputChunks != [] {
        RingRefinesLog(log, after, limit);
      }
    }
  }

  lemma KeptLast(log: seq<Chunk>, chunk: Chunk, keep: Chunk -> bool)
    ensures Keep(log + [chunk], keep) == if keep(chunk) then Keep(log, keep) + [chunk] else Keep(log, keep)
  {
    assert (log + [chunk])[..|log|] == log;
    assert Keep(log, keep) + [] == Keep(log, keep);
  }

  lemma KeptText(log: seq<Chunk>, chunk: Chunk, keep: Chunk -> bool)
    ensures TextOf(Keep(log + [chunk], keep)) ==
            if keep(chunk) then TextOf(Keep(log, keep)) + chunk.text else TextOf(Keep(log, keep))
  {
    KeptLast(log, chunk, keep);
    TextOfAppend(Keep(log, keep), [chunk]);
    TextOfOne(chunk);
  }

  lemma BufferAppend(log: seq<Chunk>, chunk: Chunk, keep: Chunk -> bool)
    ensures var buffer := LastChars(TextOf(Keep(log, keep)));
            LastChars(TextOf(Keep(log + [chunk], keep))) ==
              if keep(chunk) then AppendCappedText(buffer, chunk.text) else buffer
  {
    hide Keep, TextOf, LastChars, AppendCappedText;
    KeptText(log, chunk, keep);
    CappingCommutes(TextOf(Keep(log, keep)), chunk.text);
  }

  lemma RingCut(chunks: seq<Chunk>)
    ensures LastChunks(chunks) ==
            if |chunks| > SESSION_OUTPUT_MAX_CHUNKS then chunks[|chunks| - SESSION_OUTPUT_MAX_CHUNKS..] else chunks
  {
  }

  // ---- a reader that follows the cursor ------------------------------------------------------------

  /** `Unanswered` is a request of the watcher that fails, so that it goes by the sidecar file instead. */
  datatype Event = Appended(stream: Stream, text: string) | Polled(maxChars: int) | Unanswered | BrokerRestarted

  /** `outputs` are the answers so far and `delivered` the sequences of the chunks they were made from; `reloaded`
      says that a later broker loaded the entry. */
  datatype Session = Session(log: seq<Chunk>, reloaded: bool, cursor: int, outputs: seq<string>, delivered: seq<int>)

  const START := Session([], false, 0, [], [])

  function Sequences(chunks: seq<Chunk>): seq<int> {
    seq(|chunks|, k requires 0 <= k < |chunks| => chunks[k].sequence)
  }

  function Advance(cursor: int, latest: int): int {
    if latest == 0 then cursor else latest
  }

  function Ring(s: Session): seq<Chunk> {
    if s.reloaded then [] else LastChunks(s.log)
  }

  /** The chunks a read looks at: the ring, or the file where a restart has emptied the ring. */
  function Readable(s: Session): seq<Chunk> {
    if s.reloaded then s.log else LastChunks(s.log)
  }

  /** A reloaded entry has no capture task, so nothing is appended to it. An unanswered request brings no output and
      takes the sidecar's output sequence, which is the length of the log. */
  function Happen(s: Session, e: Event): Session {
    match e
    case Appended(stream, text) => if s.reloaded then s else s.(log := s.log + [Chunk(|s.log| + 1, stream, text)])
    case Polled(maxChars) =>
      var (text, latest) := OutputSince(Ring(s), s.log, s.cursor, maxChars);
      s.(cursor := Advance(s.cursor, latest), outputs := s.outputs + [text],
         delivered := s.delivered + Sequences(Relevant(Readable(s), s.cursor)))
    case Unanswered => s.(cursor := Advance(s.cursor, |s.log|), outputs := s.outputs + [""])
    case BrokerRestarted => s.(reloaded := true)
  }

  function Follow(s: Session, events: seq<Event>): Session
    decreases |events|
  {
    if events == [] then s else Follow(Happen(s, events[0]), events[1..])
  }

  predicate Ascending(sequences: seq<int>) {
    forall i, j | 0 <= i < j < |sequences| :: sequences[i] < sequences[j]
  }

  predicate Orderly(s: Session) {
    && Numbered(s.log) && 0 <= s.cursor <= |s.log|
    && Ascending(s.delivered)
    && (forall k | 0 <= k < |s.delivered| :: 1 <= s.delivered[k] <= s.cursor)
  }

  lemma UnreadRing(log: seq<Chunk>, cursor: nat, maxChars: int)
    requires Numbered(log) && cursor <= |log|
    ensures OutputSince(LastChunks(log), log, cursor, maxChars) ==
            (Limited(TextOf(Relevant(LastChunks(log), cursor)), maxChars), |log|)
  {
    if log == [] {
      assert Relevant([], cursor) == [] && LastChunks([]) == [];
      hide TextOf, Limited, Relevant, LastChunks, Numbered;
    } else {
      hide TextOf, Limited, Relevant, LastChunks, Numbered, RingFrom;
      RelevantInRing(log, cursor);
      ReadMovesToEnd(log, cursor);
      RingNotEmpty(log);
    }
  }

  lemma UnreadFile(log: seq<Chunk>, cursor: nat, maxChars: int)
    requires Numbered(log) && cursor <= |log|
    ensures Relevant(log, cursor) == log[cursor..]
    ensures OutputSince([], log, cursor, maxChars) == (Limited(TextOf(log[cursor..]), maxChars), |log|)
  {
    hide TextOf, Limited, Relevant, FileLatest;
    RelevantIsSuffix(log, 1, cursor);
    FileLatestNumbered(log, cursor);
  }

  /** Where a poll starts to read: at the cursor, or at the start of the ring when the ring no longer reaches back. */
  function ReadFrom(s: Session): int {
    if s.reloaded then s.cursor else RingFrom(s.log, s.cursor)
  }

  /** A poll answers with the unread chunks it can still see and moves the cursor to the end of the log. */
  lemma PollReads(s: Session, maxChars: int)
    requires Orderly(s)
    ensures s.cursor <= ReadFrom(s) <= |s.log|
    ensures var unread := s.log[ReadFrom(s)..];
            Relevant(Readable(s), s.cursor) == unread
            && Happen(s, Polled(maxChars)) ==
               s.(cursor := |s.log|, outputs := s.outputs + [Limited(TextOf(unread), maxChars)],
                  delivered := s.delivered + Sequences(unread))
  {
    hide OutputSince, Relevant, LastChunks, RingStart, TextOf, Limited, Sequences, Numbered, Ascending;
    if s.reloaded {
      UnreadFile(s.log, s.cursor, maxChars);
    } else {
      RelevantInRing(s.log, s.cursor);
      UnreadRing(s.log, s.cursor, maxChars);
    }
  }

  lemma DeliveredStaysOrderly(s: Session, from: int)
    requires Orderly(s) && s.cursor <= from <= |s.log|
    ensures Ascending(s.delivered + Sequences(s.log[from..]))
    ensures var delivered := s.delivered + Sequences(s.log[from..]);
            forall k | 0 <= k < |delivered| :: 1 <= delivered[k] <= |s.log|
  {
    forall k | 0 <= k < |s.log| - from ensures Sequences(s.log[from..])[k] == from + k + 1 {
      assert s.log[from..][k] == s.log[from + k];
    }
  }

  lemma HappenKeepsOrderly(s: Session, e: Event)
    requires Orderly(s)
    ensures Orderly(Happen(s, e)) && s.cursor <= Happen(s, e).cursor && s.outputs <= Happen(s, e).outputs
  {
    if e.Polled? {
      hide Happen, Relevant, Readable, ReadFrom, TextOf, Limited, Sequences, Numbered, Ascending;
      PollReads(s, e.maxChars);
      DeliveredStaysOrderly(s, ReadFrom(s));
    }
  }

  /** In any interleaving of output, reads and broker restarts the cursor never goes back and no chunk is delivered
      twice. */
  lemma {:induction false} NeverTwice(s: Session, events: seq<Event>)
    requires Orderly(s)
    ensures Orderly(Follow(s, events)) && s.cursor <= Follow(s, events).cursor
    decreases |events|
  {
    hide Orderly, Happen;
    if events == [] {
    } else {
      HappenKeepsOrderly(s, events[0]);
      NeverTwice(Happen(s, events[0]), events[1..]);
    }
  }

  /** The reader keeps up: at most a ring of chunks is unread where reads depend on the ring, and their text fits the
      limit; a request goes unanswered only when nothing is unread. */
  predicate KeepsUp(s: Session, e: Event)
    requires 0 <= s.cursor <= |s.log|
  {
    && (e.Polled? ==>
          (s.reloaded || |s.log| - s.cursor <= SESSION_OUTPUT_MAX_CHUNKS) && |TextOf(s.log[s.cursor..])| <= e.maxChars)
    && (e.Unanswered? ==> s.cursor == |s.log|)
  }

  ghost predicate KeepsUpRun(s: Session, events: seq<Event>)
    decreases |events|
  {
    events == [] || (0 <= s.cursor <= |s.log| && KeepsUp(s, events[0]) && KeepsUpRun(Happen(s, events[0]), events[1..]))
  }

  /** Everything up to the cursor was delivered, in order and once. */
  predicate Caught(s: Session)
    requires 0 <= s.cursor <= |s.log|
  {
    Join(s.outputs) == TextOf(s.log[..s.cursor]) && s.delivered == Sequences(s.log[..s.cursor])
  }

  lemma HappenKeepsCaught(s: Session, e: Event)
    requires Orderly(s) && Caught(s) && KeepsUp(s, e)
    ensures Orderly(Happen(s, e)) && Caught(Happen(s, e))
  {
    HappenKeepsOrderly(s, e);
    if e.Unanswered? {
      hide TextOf, Sequences;
      JoinOneMore(s.outputs, "");
      assert Join(s.outputs) + "" == Join(s.outputs);
    } else if !e.Polled? {
      hide TextOf, Sequences;
      assert Happen(s, e).log[..s.cursor] == s.log[..s.cursor];
    } else {
      PollReads(s, e.maxChars);
      assert ReadFrom(s) == s.cursor;
      hide TextOf, Sequences, Happen, Orderly, Relevant;
      var unread := s.log[s.cursor..];
      assert s.log[..|s.log|] == s.log;
      ReadTheRest(s.log, s.cursor, s.outputs);
      assert Limited(TextOf(unread), e.maxChars) == TextOf(unread);
    }
  }

  lemma ReadTheRest(log: seq<Chunk>, cursor: int, outputs: seq<string>)
    requires 0 <= cursor <= |log| && Join(outputs) == TextOf(log[..cursor])
    ensures Join(outputs + [TextOf(log[cursor..])]) == TextOf(log)
    ensures Sequences(log) == Sequences(log[..cursor]) + Sequences(log[cursor..])
  {
    var unread := log[cursor..];
    assert log == log[..cursor] + unread;
    TextOfAppend(log[..cursor], unread);
    hide TextOf;
    JoinOneMore(outputs, TextOf(unread));
  }

  /** A reader that keeps up receives the output exactly once: its answers joined are the log up to its cursor,
      and the whole log once it has polled last. */
  lemma {:induction false} ExactlyOnce(s: Session, events: seq<Event>)
    requires Orderly(s) && Caught(s) && KeepsUpRun(s, events)
    ensures var last := Follow(s, events);
            Orderly(last) && Caught(last)
            && (events != [] && events[|events| - 1].Polled? ==> Join(last.outputs) == TextOf(last.log))
    decreases |events|
  {
    hide Orderly, Happen, Caught;
    assert Orderly(s);
    if events == [] {
    } else {
      HappenKeepsCaught(s, events[0]);
      ExactlyOnce(Happen(s, events[0]), events[1..]);
      if |events| == 1 && events[0].Polled? {
        LastPollCompletes(s, events[0].maxChars);
      }
    }
  }

  lemma LastPollCompletes(s: Session, maxChars: int)
    requires Orderly(s) && Caught(s) && KeepsUp(s, Polled(maxChars))
    ensures var last := Happen(s, Polled(maxChars)); Join(last.outputs) == TextOf(last.log)
  {
    HappenKeepsCaught(s, Polled(maxChars));
    PollReads(s, maxChars);
    assert s.log[..|s.log|] == s.log;
  }

  /** From the start of a session: the last poll of a reader that kept up has received the whole output. */
  lemma WatcherReceivesOutputOnce(events: seq<Event>)
    requires KeepsUpRun(START, events)
    requires events != [] && events[|events| - 1].Polled?
    ensures var last := Follow(START, events);
            Join(last.outputs) == TextOf(last.log)
            && 0 <= last.cursor <= |last.log| && last.delivered == Sequences(last.log[..last.cursor])
  {
    ExactlyOnce(START, events);
  }

  // ---- exactly when the output is complete -----------------------------------------------------------

  predicate Uncut(text: string, maxChars: int) {
    |text| <= maxChars || maxChars == 0 || text == ""
  }

  predicate Asks(e: Event) {
    e.Polled? || e.Unanswered?
  }

  /** What one request needs: an answer unless there is nothing to read, no unread text out of sight, and a limit that
      cuts nothing. */
  predicate Complete(s: Session, e: Event)
    requires 0 <= s.cursor <= |s.log|
  {
    match e
    case Polled(maxChars) =>
      s.cursor <= ReadFrom(s) <= |s.log|
      && TextOf(s.log[s.cursor..ReadFrom(s)]) == "" && Uncut(TextOf(s.log[ReadFrom(s)..]), maxChars)
    case Unanswered => TextOf(s.log[s.cursor..]) == ""
    case _ => true
  }

  ghost predicate CompleteRun(s: Session, events: seq<Event>)
    decreases |events|
  {
    events == []
    || (0 <= s.cursor <= |s.log| && Complete(s, events[0]) && CompleteRun(Happen(s, events[0]), events[1..]))
  }

  /** The joined answers are the output up to the cursor. */
  predicate Whole(s: Session)
    requires 0 <= s.cursor <= |s.log|
  {
    Join(s.outputs) == TextOf(s.log[..s.cursor])
  }

  /** The joined answers are shorter than the output up to the cursor. */
  predicate Short(s: Session)
    requires 0 <= s.cursor <= |s.log|
  {
    |Join(s.outputs)| < |TextOf(s.log[..s.cursor])|
  }

  lemma PollLengths(s: Session, maxChars: int)
    requires Orderly(s)
    ensures var later, from := Happen(s, Polled(maxChars)), ReadFrom(s);
            && Orderly(later) && s.cursor <= from <= |s.log|
            && TextOf(later.log[..later.cursor]) ==
               TextOf(s.log[..s.cursor]) + TextOf(s.log[s.cursor..from]) + TextOf(s.log[from..])
            && Join(later.outputs) == Join(s.outputs) + Limited(TextOf(s.log[from..]), maxChars)
  {
    hide TextOf, Happen, ReadFrom, Relevant, Readable, Limited, Numbered, Ascending, Sequences;
    PollReads(s, maxChars);
    HappenKeepsOrderly(s, Polled(maxChars));
    TextInThree(s.log, s.cursor, ReadFrom(s));
    JoinOneMore(s.outputs, Limited(TextOf(s.log[ReadFrom(s)..]), maxChars));
    assert s.log[..|s.log|] == s.log;
  }

  lemma UnansweredLengths(s: Session)
    requires Orderly(s)
    ensures var later := Happen(s, Unanswered);
            && Orderly(later) && Join(later.outputs) == Join(s.outputs)
            && TextOf(later.log[..later.cursor]) == TextOf(s.log[..s.cursor]) + TextOf(s.log[s.cursor..])
  {
    HappenKeepsOrderly(s, Unanswered);
    assert s.log[..|s.log|] == s.log && s.log == s.log[..s.cursor] + s.log[s.cursor..];
    TextOfAppend(s.log[..s.cursor], s.log[s.cursor..]);
    hide TextOf;
    JoinOneMore(s.outputs, "");
    assert Join(s.outputs) + "" == Join(s.outputs);
  }

  lemma QuietEventKeepsText(s: Session, e: Event)
    requires Orderly(s) && !Asks(e)
    ensures var later := Happen(s, e);
            Orderly(later) && later.outputs == s.outputs
                && TextOf(later.log[..later.cursor]) == TextOf(s.log[..s.cursor])
  {
    hide TextOf;
    HappenKeepsOrderly(s, e);
    assert Happen(s, e).log[..s.cursor] == s.log[..s.cursor];
  }

  /** Appending a possibly cut answer gives the whole text, or something shorter. */
  lemma AnswerOutcome(read: string, lost: string, unread: string, maxChars: int)
    ensures var answer := Limited(unread, maxChars);
            if lost == "" && Uncut(unread, maxChars) then read + answer == read + lost + unread
            else |read + answer| < |read + lost + unread|
  {
    hide Limited, Uncut;
    LimitedLength(unread, maxChars);
    var answer := Limited(unread, maxChars);
    assert |read + answer| == |read| + |answer| && |read + lost + unread| == |read| + |lost| + |unread|;
    if lost == "" {
      assert read + lost == read;
    }
  }

  lemma ReadOutcome(s: Session, maxChars: int)
    requires Orderly(s) && Whole(s)
    ensures var later := Happen(s, Polled(maxChars));
            Orderly(later) && (if Complete(s, Polled(maxChars)) then Whole(later) else Short(later))
  {
    assert 0 <= s.cursor;
    hide TextOf, Happen, ReadFrom, Limited, Uncut, Orderly;
    PollLengths(s, maxChars);
    var from := ReadFrom(s);
    AnswerOutcome(TextOf(s.log[..s.cursor]), TextOf(s.log[s.cursor..from]), TextOf(s.log[from..]), maxChars);
  }

  lemma UnansweredOutcome(s: Session)
    requires Orderly(s) && Whole(s)
    ensures var later := Happen(s, Unanswered);
            Orderly(later) && (if Complete(s, Unanswered) then Whole(later) else Short(later))
  {
    hide TextOf, Happen, Orderly;
    UnansweredLengths(s);
  }

  /** From a whole session one event leaves a whole one exactly when it is no incomplete request; otherwise a short
      one. */
  lemma EventCompletesExact(s: Session, e: Event)
    requires Orderly(s) && Whole(s)
    ensures var later := Happen(s, e);
            Orderly(later) && (if Complete(s, e) then Whole(later) else Short(later))
  {
    match e
    case Polled(maxChars) => ReadOutcome(s, maxChars);
    case Unanswered => UnansweredOutcome(s);
    case _ => QuietEventKeepsText(s, e);
  }

  lemma EventKeepsShort(s: Session, e: Event)
    requires Orderly(s) && Short(s)
    ensures Orderly(Happen(s, e)) && Short(Happen(s, e))
  {
    if e.Polled? {
      hide TextOf, Happen, ReadFrom, Limited, Uncut, Orderly;
      PollLengths(s, e.maxChars);
      LimitedLength(TextOf(s.log[ReadFrom(s)..]), e.maxChars);
    } else if e.Unanswered? {
      hide TextOf, Happen, Orderly;
      UnansweredLengths(s);
    } else {
      QuietEventKeepsText(s, e);
    }
  }

  /** Text that is missing once stays missing, whatever happens later. */
  lemma {:induction false} LossIsPermanent(s: Session, events: seq<Event>)
    requires Orderly(s) && Short(s)
    ensures Orderly(Follow(s, events)) && Short(Follow(s, events))
    decreases |events|
  {
    hide Orderly, Happen, Short;
    assert Orderly(s);
    if events == [] {
    } else {
      EventKeepsShort(s, events[0]);
      LossIsPermanent(Happen(s, events[0]), events[1..]);
    }
  }

  /** Over any run the joined answers are the output up to the cursor if and only if every request was
      complete. */
  lemma {:induction false} RunCompletesExact(s: Session, events: seq<Event>)
    requires Orderly(s) && Whole(s)
    ensures Orderly(Follow(s, events)) && (Whole(Follow(s, events)) <==> CompleteRun(s, events))
    decreases |events|
  {
    hide Happen, Short, Whole, Complete, Numbered, Ascending;
    if events == [] {
    } else {
      var next := Happen(s, events[0]);
      EventCompletesExact(s, events[0]);
      if Complete(s, events[0]) {
        RunCompletesExact(next, events[1..]);
      } else {
        LossIsPermanent(next, events[1..]);
        ShortIsNotWhole(Follow(next, events[1..]));
      }
    }
  }

  /** One poll completes the output exactly when nothing unread is out of sight and the limit cuts nothing. */
  lemma PollCompletesExact(s: Session, maxChars: int)
    requires Orderly(s) && Whole(s)
    ensures Join(Happen(s, Polled(maxChars)).outputs) == TextOf(s.log) <==> Complete(s, Polled(maxChars))
  {
    EventCompletesExact(s, Polled(maxChars));
    PollReads(s, maxChars);
    hide TextOf, Happen, ReadFrom, Limited, Uncut, Orderly, Complete;
    assert s.log[..|s.log|] == s.log;
  }

  lemma RequestReachesEnd(s: Session, e: Event)
    requires Orderly(s) && Asks(e)
    ensures Happen(s, e).log == s.log && Happen(s, e).cursor == |s.log|
  {
    if e.Polled? {
      PollReads(s, e.maxChars);
    }
  }

  lemma {:induction false} LastRequestReachesEnd(s: Session, events: seq<Event>)
    requires Orderly(s) && events != [] && Asks(events[|events| - 1])
    ensures Orderly(Follow(s, events)) && Follow(s, events).cursor == |Follow(s, events).log|
    decreases |events|
  {
    hide Happen, Numbered, Ascending;
    HappenKeepsOrderly(s, events[0]);
    if |events| == 1 {
      RequestReachesEnd(s, events[0]);
    } else {
      LastRequestReachesEnd(Happen(s, events[0]), events[1..]);
    }
  }

  /** A watch that ends with a request has received the whole output if and only if every request was complete. */
  lemma WatchCompletesExact(events: seq<Event>)
    requires events != [] && Asks(events[|events| - 1])
    ensures var last := Follow(START, events); Join(last.outputs) == TextOf(last.log) <==> CompleteRun(START, events)
  {
    hide Follow, CompleteRun;
    RunCompletesExact(START, events);
    LastRequestReachesEnd(START, events);
    var last := Follow(START, events);
    assert last.log[..|last.log|] == last.log;
  }

  lemma ShortIsNotWhole(s: Session)
    requires 0 <= s.cursor <= |s.log|
    ensures Short(s) ==> !Whole(s)
  {
  }

  lemma TextInThree(log: seq<Chunk>, cursor: nat, from: nat)
    requires cursor <= from <= |log|
    ensures TextOf(log) == TextOf(log[..cursor]) + TextOf(log[cursor..from]) + TextOf(log[from..])
  {
    assert log == log[..cursor] + log[cursor..from] + log[from..];
    TextOfAppend(log[..cursor] + log[cursor..from], log[from..]);
    TextOfAppend(log[..cursor], log[cursor..from]);
  }

  lemma JoinOneMore(parts: seq<string>, part: string)
    ensures Join(parts + [part]) == Join(parts) + part
  {
    JoinAppend(parts, [part]);
    assert [part][1..] == [] && Join([part]) == part + Join([]);
  }

  lemma LimitedLength(text: string, maxChars: int)
    ensures |Limited(text, maxChars)| <= |text|
    ensures |Limited(text, maxChars)| == |text| <==> Uncut(text, maxChars)
    ensures Uncut(text, maxChars) ==> Limited(text, maxChars) == text
  {
  }

  /** An unanswered request moves the cursor past text that was never read, and no read was incomplete. */
  lemma UnansweredLosesText(stream: Stream, text: string)
    requires text != ""
    ensures var events := [Appended(stream, text), Unanswered]; var last := Follow(START, events);
            last.cursor == |last.log| == 1 && Join(last.outputs) != TextOf(last.log)
  {
    var events := [Appended(stream, text), Unanswered];
    var chunk := Chunk(1, stream, text);
    var s1 := Happen(START, events[0]);
    assert s1.log == [chunk] && s1.log[0..] == s1.log && events[1..] == [Unanswered] && events[1..][1..] == [];
    TextOfOne(chunk);
    hide TextOf;
    assert !Complete(s1, Unanswered);
    assert Follow(START, events) == Follow(s1, [Unanswered]) == Follow(Happen(s1, Unanswered), []);
    assert !CompleteRun(START, events);
    WatchCompletesExact(events);
  }

  /** A limit that is exceeded cuts the front of the answer, and the cut text is never delivered later. */
  lemma ExceededLimitLosesText()
    ensures var last := Follow(START, [Appended(Stdout, "ab"), Polled(1), Polled(1)]);
            last.outputs == ["b", ""]
  {
    var s0 := START;
    var chunk := Chunk(1, Stdout, "ab");
    var s1 := Happen(s0, Appended(Stdout, "ab"));
    assert s1.log == [chunk];
    assert TextOf([chunk]) == "ab" && TextOf([]) == "" by { TextOfOne(chunk); }
    assert Orderly(s1);
    assert RingFrom([chunk], 0) == 0 && RingFrom([chunk], 1) == 1 && [chunk][0..] == [chunk] && [chunk][1..] == [];
    assert Limited("ab", 1) == "b" && Limited("", 1) == "";
    hide Happen, Relevant, Readable, LastChunks, RingFrom, TextOf, Limited, Orderly;
    var s2 := Happen(s1, Polled(1));
    PollReads(s1, 1);
    HappenKeepsOrderly(s1, Polled(1));
    assert s2.log == [chunk] && s2.cursor == 1 && s2.outputs == ["b"];
    PollReads(s2, 1);
    var s3 := Happen(s2, Polled(1));
    assert s3.outputs == ["b", ""];
    assert Follow(s2, [Polled(1)]) == Follow(s3, []);
    assert Follow(s1, [Polled(1), Polled(1)]) == Follow(s2, [Polled(1)]);
    assert Follow(s0, [Appended(Stdout, "ab"), Polled(1), Polled(1)]) == Follow(s1, [Polled(1), Polled(1)]);
  }
}

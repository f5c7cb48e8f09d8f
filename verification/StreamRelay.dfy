/** The event-stream relay between an upstream model server and the client. */
module StreamRelay {
  import opened Common
  import opened StreamChunks

  // ----- lines -----

  predicate IsSpace(c: char) {
    c == ' ' || c == '\t' || c == '\n' || c == '\r' || c == '\U{000B}' || c == '\U{000C}' || c == '\U{0085}' || c == '\U{00A0}'
  }

  function TrimLeft(s: string): string {
    if s != "" && IsSpace(s[0]) then TrimLeft(s[1..]) else s
  }

  function TrimRight(s: string): string {
    if s != "" && IsSpace(s[|s| - 1]) then TrimRight(s[..|s| - 1]) else s
  }

  predicate IsData(line: string) { |line| >= 5 && line[..5] == "data:" }

  function Payload(line: string): string
    requires IsData(line)
  {
    TrimRight(TrimLeft(line[5..]))
  }

  predicate IsDoneLine(line: string) { IsData(line) && Payload(line) == "[DONE]" }

  // ----- what the client sees -----

  /** `Raw` is a line passed through; `Data` an event; the last three are the
      events the relay writes itself. */
  datatype Frame =
    | Raw(line: string)
    | Data(payload: string)
    | ErrorEvent(stream: Stream)
    | UsageEvent(stream: Stream, prompt: int, completion: int)
    | DoneEvent

  /** The identity a synthesized event carries. */
  datatype Stream = Stream(id: string, created: int, model: string)

  datatype Status = Success | ClientDisconnected | StreamError

  predicate EndsStream(f: Frame) { f == DoneEvent || f == Data("[DONE]") }

  // ----- meaning of a prefix of upstream lines -----

  ghost function FramesOf(codec: Codec, line: string): seq<Frame> {
    if !IsData(line) then (if line == "" then [] else [Raw(line)])
    else match Normalized(codec, Payload(line))
      case Some(q) => [Data(q)]
      case None => []
  }

  ghost function Forwarded(codec: Codec, lines: seq<string>): seq<Frame> {
    if lines == [] then [] else Forwarded(codec, lines[..|lines| - 1]) + FramesOf(codec, lines[|lines| - 1])
  }

  function ChunkOf(codec: Codec, line: string): Option<Response> {
    if IsData(line) then codec.parse(Payload(line)) else None
  }

  /** An upstream usage chunk: no choices, but a token total. */
  predicate IsUsageChunk(chunk: Response) { chunk.choices == 0 && chunk.usage.total > 0 }

  predicate ReportsTokens(chunk: Response) {
    chunk.usage.prompt > 0 || chunk.usage.completion > 0 || IsUsageChunk(chunk)
  }

  predicate Reports(codec: Codec, line: string) {
    ChunkOf(codec, line).Some? && ReportsTokens(ChunkOf(codec, line).value)
  }

  predicate SendsUsage(codec: Codec, line: string) {
    ChunkOf(codec, line).Some? && IsUsageChunk(ChunkOf(codec, line).value)
  }

  predicate SeenUsage(codec: Codec, lines: seq<string>) {
    exists k :: 0 <= k < |lines| && SendsUsage(codec, lines[k])
  }

  /** The counts of the last line that reports any. */
  function TokenCounts(codec: Codec, lines: seq<string>): (int, int) {
    if lines == [] then (0, 0)
    else if Reports(codec, lines[|lines| - 1]) then
      var u := ChunkOf(codec, lines[|lines| - 1]).value.usage;
      (u.prompt, u.completion)
    else TokenCounts(codec, lines[..|lines| - 1])
  }

  /** Identity of the first chunk that has one, under the requested model name. */
  function StreamOf(codec: Codec, lines: seq<string>, model: string): Stream {
    if lines == [] then Stream("", 0, "") else
      var before := StreamOf(codec, lines[..|lines| - 1], model);
      var chunk := ChunkOf(codec, lines[|lines| - 1]);
      if before.id == "" && chunk.Some? && chunk.value.id != ""
      then Stream(chunk.value.id, chunk.value.created, model) else before
  }

  /** Where upstream ended the stream properly, or the number of lines. */
  function FirstDone(lines: seq<string>): (r: nat)
    ensures r <= |lines| && (r < |lines| ==> IsDoneLine(lines[r]))
    ensures forall k :: 0 <= k < r ==> !IsDoneLine(lines[k])
    decreases |lines|
  {
    if lines == [] then 0 else if IsDoneLine(lines[0]) then 0 else 1 + FirstDone(lines[1..])
  }

  /** Everything the client sees for upstream lines followed by a read error. */
  ghost function Trace(codec: Codec, lines: seq<string>, wantsUsage: bool, model: string): seq<Frame> {
    var d := FirstDone(lines);
    var seen := lines[..d];
    var (prompt, completion) := TokenCounts(codec, seen);
    var stream := StreamOf(codec, seen, model);
    Forwarded(codec, seen) + (
      if d == |lines| then [ErrorEvent(stream), DoneEvent]
      else if wantsUsage && !SeenUsage(codec, seen) && prompt + completion > 0
      then [UsageEvent(stream, prompt, completion), DoneEvent]
      else [DoneEvent])
  }

  /** The relay loop.  Upstream delivers `lines` and then a read error; `gone`
      says whether the client had disconnected by then. */
  method StreamChat(codec: Codec, lines: seq<string>, gone: bool, wantsUsage: bool, model: string)
    returns (out: seq<Frame>, status: Status, prompt: int, completion: int)
    ensures out == Trace(codec, lines, wantsUsage, model)
    ensures status == if FirstDone(lines) < |lines| then Success else if gone then ClientDisconnected else StreamError
    ensures (prompt, completion) == TokenCounts(codec, lines[..FirstDone(lines)])
  {
    hide Normalized, Payload, IsData;
    out, status, prompt, completion := [], StreamError, 0, 0;
    var stream := Stream("", 0, "");
    var seenUsage := false;
    var k := 0;
    while true
      invariant 0 <= k <= |lines| && k <= FirstDone(lines)
      invariant out == Forwarded(codec, lines[..k])
      invariant (prompt, completion) == TokenCounts(codec, lines[..k])
      invariant stream == StreamOf(codec, lines[..k], model)
      invariant seenUsage == SeenUsage(codec, lines[..k])
      decreases |lines| - k
    {
      if k == |lines| {
        assert lines[..k] == lines;
        status := if gone then ClientDisconnected else StreamError;
        out := out + [ErrorEvent(stream), DoneEvent];
        return;
      }
      var line := lines[k];
      ghost var before := lines[..k];
      ghost var after := lines[..k + 1];
      assert after[..k] == before && after[k] == line;
      if !IsData(line) {
        if line != "" { out := out + [Raw(line)]; }
        assert FramesOf(codec, line) == if line == "" then [] else [Raw(line)];
        k := k + 1;
        SeenUsageStep(codec, before, line);
        assert after == before + [line];
        continue;
      }
      var payload := Payload(line);
      if payload == "[DONE]" {
        FirstDoneAt(lines, k);
        status := Success;
        if wantsUsage && !seenUsage && prompt + completion > 0 {
          out := out + [UsageEvent(stream, prompt, completion), DoneEvent];
        } else {
          out := out + [DoneEvent];
        }
        return;
      }
      var chunk := codec.parse(payload);
      assert chunk == ChunkOf(codec, line);
      if chunk.Some? {
        if stream.id == "" && chunk.value.id != "" {
          stream := Stream(chunk.value.id, chunk.value.created, model);
        }
        if chunk.value.usage.prompt > 0 || chunk.value.usage.completion > 0 {
          prompt, completion := chunk.value.usage.prompt, chunk.value.usage.completion;
        }
        if chunk.value.choices == 0 && chunk.value.usage.total > 0 {
          seenUsage := true;
          prompt, completion := chunk.value.usage.prompt, chunk.value.usage.completion;
        }
      }
      var normalized := NormalizeStreamChunk(codec, payload);
      if normalized.Some? {
        out := out + [Data(normalized.value)];
      }
      SeenUsageStep(codec, before, line);
      assert after == before + [line];
      FirstDoneAfter(lines, k);
      k := k + 1;
    }
  }

  lemma SeenUsageStep(codec: Codec, lines: seq<string>, line: string)
    ensures SeenUsage(codec, lines + [line]) <==> SeenUsage(codec, lines) || SendsUsage(codec, line)
  {
    hide SendsUsage;
    var all := lines + [line];
    if SeenUsage(codec, lines) {
      var k :| 0 <= k < |lines| && SendsUsage(codec, lines[k]);
      assert all[k] == lines[k];
    }
    if SendsUsage(codec, line) { assert all[|lines|] == line; }
  }

  lemma FirstDoneAt(lines: seq<string>, k: nat)
    requires k <= FirstDone(lines) && k < |lines| && IsDoneLine(lines[k])
    ensures FirstDone(lines) == k
  {
  }

  lemma FirstDoneAfter(lines: seq<string>, k: nat)
    requires k <= FirstDone(lines) && k < |lines| && !IsDoneLine(lines[k])
    ensures k < FirstDone(lines)
  {
  }

  // ----- what the trace guarantees -----

  lemma {:induction false} ForwardedNeverEnds(codec: Codec, lines: seq<string>, i: nat)
    requires Lawful(codec) && i < |Forwarded(codec, lines)|
    requires forall k :: 0 <= k < |lines| ==> !IsDoneLine(lines[k])
    ensures var f := Forwarded(codec, lines)[i]; (f.Raw? || f.Data?) && !EndsStream(f)
  {
    hide Contains, Dropped, Suspicious, IsData;
    var n := |lines| - 1;
    if i < |Forwarded(codec, lines[..n])| {
      ForwardedNeverEnds(codec, lines[..n], i);
    } else {
      assert !IsDoneLine(lines[n]);
    }
  }

  /** The client sees exactly one end marker, and it is the last thing it sees. */
  lemma OneEndMarkerLast(codec: Codec, lines: seq<string>, wantsUsage: bool, model: string, i: nat)
    requires Lawful(codec) && i < |Trace(codec, lines, wantsUsage, model)|
    ensures EndsStream(Trace(codec, lines, wantsUsage, model)[i]) <==> i == |Trace(codec, lines, wantsUsage, model)| - 1
  {
    hide Lawful, Forwarded;
    var seen := lines[..FirstDone(lines)];
    if i < |Forwarded(codec, seen)| {
      ForwardedNeverEnds(codec, seen, i);
    }
  }

  /** A synthesized usage event comes at most once, just before the end, exactly
      if it was asked for, upstream ended properly, reported tokens and sent no
      usage chunk itself; it carries the latest counts.  An error event marks
      every other ending. */
  lemma UsageEventIsRight(codec: Codec, lines: seq<string>, wantsUsage: bool, model: string, i: nat)
    requires Lawful(codec) && i < |Trace(codec, lines, wantsUsage, model)|
    ensures var t := Trace(codec, lines, wantsUsage, model);
      var seen := lines[..FirstDone(lines)];
      var (prompt, completion) := TokenCounts(codec, seen);
      && (t[i].UsageEvent? <==>
            && i == |t| - 2 && wantsUsage && FirstDone(lines) < |lines| && prompt + completion > 0
            && forall k :: 0 <= k < |seen| ==> ChunkOf(codec, seen[k]).Some? ==>
                 ChunkOf(codec, seen[k]).value.choices > 0 || ChunkOf(codec, seen[k]).value.usage.total <= 0)
      && (t[i].UsageEvent? ==> t[i] == UsageEvent(StreamOf(codec, seen, model), prompt, completion))
      && (t[i].ErrorEvent? <==> i == |t| - 2 && FirstDone(lines) == |lines|)
  {
    hide Lawful, Forwarded;
    var seen := lines[..FirstDone(lines)];
    if i < |Forwarded(codec, seen)| {
      ForwardedNeverEnds(codec, seen, i);
    }
  }

  /** The counts are those of the last line that reports any, even when that
      line itself is dropped and never forwarded. */
  lemma {:induction false} CountsAreTheLatest(codec: Codec, lines: seq<string>, k: nat)
    requires k < |lines| && ChunkOf(codec, lines[k]).Some? && CountsTokens(ChunkOf(codec, lines[k]).value)
    requires forall j :: k < j < |lines| && ChunkOf(codec, lines[j]).Some? ==> !CountsTokens(ChunkOf(codec, lines[j]).value)
    ensures TokenCounts(codec, lines)
         == (ChunkOf(codec, lines[k]).value.usage.prompt, ChunkOf(codec, lines[k]).value.usage.completion)
  {
    hide ChunkOf;
    var n := |lines| - 1;
    if k < n {
      CountsAreTheLatest(codec, lines[..n], k);
    }
  }

  /** Any prompt or completion tokens, or a total in a chunk without choices. */
  predicate CountsTokens(r: Response) {
    match r case Response(_, _, choices, Usage(prompt, completion, total)) =>
      prompt > 0 || completion > 0 || (choices == 0 && total > 0)
  }

  /** And without any such line there are none. */
  lemma {:induction false} NoCountsNoTokens(codec: Codec, lines: seq<string>)
    requires forall j :: 0 <= j < |lines| && ChunkOf(codec, lines[j]).Some? ==> !CountsTokens(ChunkOf(codec, lines[j]).value)
    ensures TokenCounts(codec, lines) == (0, 0)
  {
    hide ChunkOf;
    if lines != [] {
      NoCountsNoTokens(codec, lines[..|lines| - 1]);
    }
  }

  /** Synthesized events carry the identity of the first chunk that has one,
      under the model name the client asked for. */
  lemma {:induction false} StreamIsTheFirst(codec: Codec, lines: seq<string>, model: string, k: nat)
    requires k < |lines| && ChunkOf(codec, lines[k]).Some? && ChunkOf(codec, lines[k]).value.id != ""
    requires forall j :: 0 <= j < k ==> ChunkOf(codec, lines[j]).Some? ==> ChunkOf(codec, lines[j]).value.id == ""
    ensures StreamOf(codec, lines, model)
         == Stream(ChunkOf(codec, lines[k]).value.id, ChunkOf(codec, lines[k]).value.created, model)
  {
    hide ChunkOf;
    var n := |lines| - 1;
    if k < n {
      StreamIsTheFirst(codec, lines[..n], model, k);
    } else {
      NoIdentityYet(codec, lines[..n], model);
    }
  }

  lemma {:induction false} NoIdentityYet(codec: Codec, lines: seq<string>, model: string)
    requires forall j :: 0 <= j < |lines| ==> ChunkOf(codec, lines[j]).Some? ==> ChunkOf(codec, lines[j]).value.id == ""
    ensures StreamOf(codec, lines, model) == Stream("", 0, "")
  {
    hide ChunkOf;
    if lines != [] {
      NoIdentityYet(codec, lines[..|lines| - 1], model);
    }
  }

  lemma {:induction false} ForwardedContains(codec: Codec, lines: seq<string>, k: nat, f: Frame)
    requires k < |lines| && FramesOf(codec, lines[k]) == [f]
    ensures f in Forwarded(codec, lines)
  {
    hide FramesOf;
    var n := |lines| - 1;
    if k < n {
      ForwardedContains(codec, lines[..n], k, f);
    }
  }

  // ----- order -----

  /** A line that the client gets to see. */
  ghost predicate Kept(codec: Codec, line: string) {
    if IsData(line) then Normalized(codec, Payload(line)).Some? else line != ""
  }

  /** Where line `k` stands: behind all earlier lines that the client gets to see. */
  ghost function Position(codec: Codec, lines: seq<string>, k: nat): nat
    requires k <= |lines|
  {
    if k == 0 then 0 else Position(codec, lines, k - 1) + (if Kept(codec, lines[k - 1]) then 1 else 0)
  }

  lemma {:induction false} PositionsIncrease(codec: Codec, lines: seq<string>, j: nat, k: nat)
    requires j < k <= |lines|
    ensures Position(codec, lines, j) <= Position(codec, lines, k)
    ensures Kept(codec, lines[j]) ==> Position(codec, lines, j) < Position(codec, lines, k)
    decreases k
  {
    hide Kept;
    if j < k - 1 { PositionsIncrease(codec, lines, j, k - 1); }
  }

  lemma {:induction false} PositionInPrefix(codec: Codec, lines: seq<string>, n: nat, k: nat)
    requires k <= n <= |lines|
    ensures Position(codec, lines[..n], k) == Position(codec, lines, k)
    decreases k
  {
    hide Kept;
    if k > 0 { PositionInPrefix(codec, lines, n, k - 1); }
  }

  lemma {:induction false} ForwardedLength(codec: Codec, lines: seq<string>)
    ensures |Forwarded(codec, lines)| == Position(codec, lines, |lines|)
  {
    hide Normalized, Payload, IsData;
    if lines != [] {
      var n := |lines| - 1;
      ForwardedLength(codec, lines[..n]);
      PositionInPrefix(codec, lines, n, n);
    }
  }

  lemma {:induction false} LineStands(codec: Codec, lines: seq<string>, k: nat)
    requires k < |lines| && Kept(codec, lines[k])
    ensures Position(codec, lines, k) < |Forwarded(codec, lines)|
    ensures [Forwarded(codec, lines)[Position(codec, lines, k)]] == FramesOf(codec, lines[k])
  {
    hide Normalized, Payload, IsData;
    var n := |lines| - 1;
    ForwardedLength(codec, lines[..n]);
    PositionInPrefix(codec, lines, n, n);
    if k < n {
      LineStands(codec, lines[..n], k);
      PositionInPrefix(codec, lines, n, k);
    }
  }

  lemma {:induction false} PositionIsALine(codec: Codec, lines: seq<string>, n: nat, i: nat) returns (k: nat)
    requires n <= |lines| && i < Position(codec, lines, n)
    ensures k < n && Kept(codec, lines[k]) && Position(codec, lines, k) == i
    decreases n
  {
    hide Kept;
    if Kept(codec, lines[n - 1]) && Position(codec, lines, n - 1) == i {
      k := n - 1;
    } else {
      k := PositionIsALine(codec, lines, n - 1, i);
    }
  }

  /** How many frames the relay adds at the end. */
  function TailLength(codec: Codec, lines: seq<string>, wantsUsage: bool): nat {
    var seen := lines[..FirstDone(lines)];
    if FirstDone(lines) == |lines| || (wantsUsage && !SeenUsage(codec, seen) && TokenCounts(codec, seen).0 + TokenCounts(codec, seen).1 > 0)
    then 2 else 1
  }

  /** The relay keeps the order of the stream: the lines before the end that the
      client gets to see stand in the trace one behind the other, from the first
      position to the added tail, each at its own position. */
  lemma TraceKeepsOrder(codec: Codec, lines: seq<string>, wantsUsage: bool, model: string, j: nat, k: nat)
    requires j < k < FirstDone(lines) && Kept(codec, lines[j]) && Kept(codec, lines[k])
    ensures Position(codec, lines, j) < Position(codec, lines, k)
      < |Trace(codec, lines, wantsUsage, model)| - TailLength(codec, lines, wantsUsage)
  {
    var d := FirstDone(lines);
    ForwardedLength(codec, lines[..d]);
    PositionInPrefix(codec, lines, d, d);
    PositionsIncrease(codec, lines, j, k);
    PositionsIncrease(codec, lines, k, d);
    hide Kept, Position, Forwarded, FirstDone, SeenUsage, TokenCounts;
  }

  /** Every position before the tail is that of such a line. */
  lemma TraceIsFullyUpstream(codec: Codec, lines: seq<string>, wantsUsage: bool, model: string, i: nat) returns (k: nat)
    requires i < |Trace(codec, lines, wantsUsage, model)| - TailLength(codec, lines, wantsUsage)
    ensures k < FirstDone(lines) && Kept(codec, lines[k]) && Position(codec, lines, k) == i
  {
    var d := FirstDone(lines);
    ForwardedLength(codec, lines[..d]);
    PositionInPrefix(codec, lines, d, d);
    k := PositionIsALine(codec, lines, d, i);
  }

  /** A line outside the event data stands there verbatim, and a data line that
      needs no cleaning with its payload unchanged. */
  lemma LineStandsVerbatim(codec: Codec, lines: seq<string>, wantsUsage: bool, model: string, k: nat)
    requires k < FirstDone(lines) && Kept(codec, lines[k])
    ensures var t := Trace(codec, lines, wantsUsage, model); var at := Position(codec, lines, k);
      && at < |t|
      && (!IsData(lines[k]) ==> t[at] == Raw(lines[k]))
      && (IsData(lines[k]) ==> t[at].Data? && Some(t[at].payload) == Normalized(codec, Payload(lines[k])))
      && (IsData(lines[k]) && !Suspicious(Payload(lines[k])) ==> t[at] == Data(Payload(lines[k])))
  {
    var d := FirstDone(lines);
    LineStands(codec, lines[..d], k);
    PositionInPrefix(codec, lines, d, k);
    assert lines[..d][k] == lines[k];
    hide Forwarded, Position, Payload, Suspicious, Dropped, FirstDone, IsData;
  }

  predicate AllSpace(s: string) { forall i :: 0 <= i < |s| ==> IsSpace(s[i]) }

  /** The payload of a data line is what stands between the white space. */
  lemma PayloadIsTrimmed(pre: string, p: string, post: string)
    requires AllSpace(pre) && AllSpace(post) && (p != "" ==> !IsSpace(p[0]) && !IsSpace(p[|p| - 1]))
    ensures IsData("data:" + pre + p + post) && Payload("data:" + pre + p + post) == p
  {
    var line := "data:" + pre + p + post;
    assert line[..5] == "data:" && line[5..] == pre + p + post;
    TrimsLeft(pre, p, post);
    TrimsRight(p, post);
    if p == "" { TrimsAway(post); }
  }

  lemma {:induction false} TrimsLeft(pre: string, p: string, post: string)
    requires AllSpace(pre) && (p != "" ==> !IsSpace(p[0]))
    ensures p != "" ==> TrimLeft(pre + p + post) == p + post
    ensures p == "" ==> TrimLeft(pre + p + post) == TrimLeft(post)
    decreases |pre|
  {
    if pre == "" {
      assert pre + p + post == p + post;
      assert p == "" ==> p + post == post;
    } else {
      assert (pre + p + post)[1..] == pre[1..] + p + post;
      TrimsLeft(pre[1..], p, post);
    }
  }

  lemma {:induction false} TrimsRight(p: string, post: string)
    requires AllSpace(post) && (p != "" ==> !IsSpace(p[|p| - 1]))
    ensures TrimRight(p + post) == p
    decreases |post|
  {
    if post == "" {
      assert p + post == p;
    } else {
      var n := |post| - 1;
      assert (p + post)[..|p + post| - 1] == p + post[..n];
      TrimsRight(p, post[..n]);
    }
  }

  lemma {:induction false} TrimsAway(s: string)
    requires AllSpace(s)
    ensures TrimLeft(s) == ""
    decreases |s|
  {
    if s != "" { TrimsAway(s[1..]); }
  }

  // ----- usage -----

  /** The two parses see the same number of choices. */
  ghost predicate ParsesAgree(codec: Codec) {
    forall p :: codec.decode(p).Some? && codec.parse(p).Some? ==> |codec.decode(p).value.choices| == codec.parse(p).value.choices
  }

  predicate CarriesUsage(codec: Codec, f: Frame) {
    f.UsageEvent?
    || (f.Data? && codec.parse(f.payload).Some?
        && codec.parse(f.payload).value.choices == 0 && codec.parse(f.payload).value.usage.total > 0)
  }

  /** A client that asks for usage gets it whenever upstream ends properly and
      reported any tokens: upstream's own usage chunk, verbatim, or a synthesized one. */
  lemma UsageReachesTheClient(codec: Codec, lines: seq<string>, model: string)
    requires ParsesAgree(codec) && FirstDone(lines) < |lines|
    requires var (p, c) := TokenCounts(codec, lines[..FirstDone(lines)]); p + c > 0
    ensures exists f :: f in Trace(codec, lines, true, model) && CarriesUsage(codec, f)
  {
    var d := FirstDone(lines);
    var seen := lines[..d];
    var t := Trace(codec, lines, true, model);
    if SeenUsage(codec, seen) {
      var k :| 0 <= k < |seen| && SendsUsage(codec, seen[k]);
      var payload := Payload(seen[k]);
      UsageChunkPasses(codec, payload);
      ForwardedContains(codec, seen, k, Data(payload));
      assert Data(payload) in t;
    } else {
      assert t[|t| - 2] in t && CarriesUsage(codec, t[|t| - 2]);
    }
  }

  lemma UsageChunkPasses(codec: Codec, payload: string)
    requires ParsesAgree(codec) && codec.parse(payload).Some? && IsUsageChunk(codec.parse(payload).value)
    ensures Normalized(codec, payload) == Some(payload)
  {
    assert CleanedAll([]) == [];
  }
}

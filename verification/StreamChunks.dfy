/** Normalisation of streamed completion chunks. */
module StreamChunks {
  import opened Common

  datatype Content = Null | Text(text: string) | Structured

  /** `reasoning` says whether the delta carries reasoning content. */
  datatype Delta = Delta(content: Content, reasoning: bool, rest: string)
  datatype Choice = Choice(delta: Option<Delta>, finishReason: Option<string>)
  datatype Usage = Usage(prompt: int, completion: int, total: int)

  /** A payload as the normaliser reads and rewrites it, and as the relay reads it. */
  datatype Chunk = Chunk(choices: seq<Choice>, rest: string)
  datatype Response = Response(id: string, created: int, choices: nat, usage: Usage)

  /** The JSON library: the two parses, and the encoding, which may fail. */
  datatype Codec = Codec(
    decode: string -> Option<Chunk>, encode: Chunk -> Option<string>, parse: string -> Option<Response>)

  predicate OccursAt(s: string, sub: string, i: nat) {
    i + |sub| <= |s| && s[i..i + |sub|] == sub
  }

  predicate Contains(s: string, sub: string) {
    exists i :: 0 <= i <= |s| - |sub| && OccursAt(s, sub, i)
  }

  /** The textual test that decides whether a payload is parsed at all. */
  predicate Suspicious(payload: string) {
    || Contains(payload, "reasoning_content")
    || Contains(payload, "\"delta\":{}") || Contains(payload, "\"delta\": {}")
  }

  predicate Empty(c: Content) { c == Null || c == Text("") }

  /** Reasoning, no visible content, and not the stop signal. */
  predicate PureReasoning(c: Choice) {
    c.delta.Some? && c.delta.value.reasoning && c.finishReason == None && Empty(c.delta.value.content)
  }

  function Cleaned(c: Choice): Choice {
    var d := if c.delta == None then Delta(Text(""), false, "") else c.delta.value.(reasoning := false);
    c.(delta := Some(if c.finishReason.Some? && d.content == Null then d.(content := Text("")) else d))
  }

  function CleanedAll(cs: seq<Choice>): (r: seq<Choice>)
    ensures |r| == |cs| && forall i :: 0 <= i < |cs| ==> r[i] == Cleaned(cs[i])
  {
    seq(|cs|, i requires 0 <= i < |cs| => Cleaned(cs[i]))
  }

  ghost predicate Dropped(codec: Codec, payload: string) {
    && Suspicious(payload) && codec.decode(payload).Some?
    && exists i :: 0 <= i < |codec.decode(payload).value.choices| && PureReasoning(codec.decode(payload).value.choices[i])
  }

  /** What is forwarded for a payload; None when it is dropped. */
  ghost function Normalized(codec: Codec, payload: string): Option<string> {
    if !Suspicious(payload) || codec.decode(payload) == None then Some(payload)
    else if Dropped(codec, payload) then None
    else
      var chunk := codec.decode(payload).value;
      if CleanedAll(chunk.choices) == chunk.choices then Some(payload)
      else match codec.encode(chunk.(choices := CleanedAll(chunk.choices)))
        case Some(text) => Some(text)
        case None => Some(payload)
  }

  /** Edits the choices in place. */
  method CleanChoices(choices: array<Choice>) returns (modified: bool, shouldDrop: bool)
    modifies choices
    ensures choices[..] == CleanedAll(old(choices[..]))
    ensures modified <==> choices[..] != old(choices[..])
    ensures shouldDrop <==> exists i :: 0 <= i < choices.Length && PureReasoning(old(choices[i]))
  {
    modified, shouldDrop := false, false;
    for k := 0 to choices.Length
      invariant forall i :: 0 <= i < choices.Length ==> choices[i] == if i < k then Cleaned(old(choices[i])) else old(choices[i])
      invariant modified <==> exists i :: 0 <= i < k && Cleaned(old(choices[i])) != old(choices[i])
      invariant shouldDrop <==> exists i :: 0 <= i < k && PureReasoning(old(choices[i]))
    {
      var c := choices[k];
      var changed := false;
      if c.delta == None {
        c := c.(delta := Some(Delta(Text(""), false, "")));
        changed := true;
      }
      var d := c.delta.value;
      var hasReasoning := d.reasoning;
      if hasReasoning {
        d := d.(reasoning := false);
        changed := true;
      }
      var drop := false;
      if c.finishReason.Some? {
        if d.content == Null {
          d := d.(content := Text(""));
          changed := true;
        }
      } else if hasReasoning && Empty(d.content) {
        drop := true;
      }
      choices[k] := c.(delta := Some(d));
      assert choices[k] == Cleaned(old(choices[k]));
      modified := modified || changed;
      shouldDrop := shouldDrop || drop;
    }
    assert choices[..] != old(choices[..]) ==> exists i :: 0 <= i < choices.Length && choices[..][i] != old(choices[..])[i];
  }

  method NormalizeStreamChunk(codec: Codec, payload: string) returns (r: Option<string>)
    ensures r == Normalized(codec, payload)
  {
    if !Suspicious(payload) { return Some(payload); }
    var parsed := codec.decode(payload);
    if parsed == None { return Some(payload); }
    var chunk := parsed.value;
    var choices := new Choice[|chunk.choices|](i requires 0 <= i < |chunk.choices| => chunk.choices[i]);
    assert choices[..] == chunk.choices;
    var modified, shouldDrop := CleanChoices(choices);
    if shouldDrop && choices.Length > 0 { return None; }
    if !modified { return Some(payload); }
    var encoded := codec.encode(chunk.(choices := choices[..]));
    if encoded == None { return Some(payload); }
    return encoded;
  }

  // ----- what normalisation guarantees -----

  /** What is encoded decodes to itself and is never the end marker. */
  ghost predicate Lawful(codec: Codec) {
    forall c :: codec.encode(c).Some? ==> codec.decode(codec.encode(c).value) == Some(c) && codec.encode(c).value != "[DONE]"
  }

  predicate HasReasoning(c: Choice) { c.delta.Some? && c.delta.value.reasoning }

  ghost predicate CarriesReasoning(codec: Codec, payload: string) {
    && codec.decode(payload).Some?
    && exists i :: 0 <= i < |codec.decode(payload).value.choices| && HasReasoning(codec.decode(payload).value.choices[i])
  }

  lemma CleanedHidesReasoning(cs: seq<Choice>)
    ensures forall i :: 0 <= i < |cs| ==> !HasReasoning(CleanedAll(cs)[i])
  {
  }

  ghost predicate Unencodable(codec: Codec, payload: string) {
    && codec.decode(payload).Some?
    && codec.encode(codec.decode(payload).value.(choices := CleanedAll(codec.decode(payload).value.choices))) == None
  }

  /** Reasoning content reaches the client exactly when the textual test misses
      it, that is when the decoder accepts another spelling of the field name, or
      when the cleaned chunk cannot be encoded. */
  lemma ForwardedReasoningIff(codec: Codec, payload: string)
    requires Lawful(codec) && Normalized(codec, payload).Some?
    ensures CarriesReasoning(codec, Normalized(codec, payload).value)
      <==> CarriesReasoning(codec, payload) && (!Suspicious(payload) || Unencodable(codec, payload))
  {
    hide Suspicious, Dropped, CleanedAll, HasReasoning;
    if Suspicious(payload) && codec.decode(payload).Some? {
      CleanedHidesReasoning(codec.decode(payload).value.choices);
    }
  }

  /** A choice keeps its stop signal, its text and everything else it says; only a
      missing text may become an empty one. */
  predicate SaysTheSame(c: Choice, c': Choice) {
    && c'.finishReason == c.finishReason
    && (c.delta.Some? ==>
          && c'.delta.Some? && c'.delta.value.rest == c.delta.value.rest
          && (c'.delta.value.content == c.delta.value.content
              || (c.delta.value.content == Null && c'.delta.value.content == Text(""))))
    && (c.delta == None ==> c'.delta == None || c'.delta == Some(Delta(Text(""), false, "")))
  }

  /** What is forwarded says the same as what upstream sent, choice by choice. */
  lemma ForwardedSaysTheSame(codec: Codec, payload: string)
    requires Lawful(codec) && codec.decode(payload).Some? && Normalized(codec, payload).Some?
    ensures var chunk := codec.decode(payload).value; var out := codec.decode(Normalized(codec, payload).value);
      && out.Some? && out.value.rest == chunk.rest && |out.value.choices| == |chunk.choices|
      && forall i :: 0 <= i < |chunk.choices| ==> SaysTheSame(chunk.choices[i], out.value.choices[i])
  {
    hide Suspicious, Dropped;
  }

  lemma ContainsInfix(pre: string, sub: string, post: string)
    ensures Contains(pre + sub + post, sub)
  {
    assert (pre + sub + post)[|pre|..|pre| + |sub|] == sub;
    assert OccursAt(pre + sub + post, sub, |pre|);
  }

  /** A payload in which the field name is spelled out never shows reasoning to the
      client, unless the cleaned chunk cannot be encoded; and it is dropped exactly
      when some choice has reasoning, no stop signal and no text. */
  lemma SpelledReasoningIsHidden(codec: Codec, pre: string, post: string)
    requires Lawful(codec)
    ensures var payload := pre + "reasoning_content" + post;
      && (Normalized(codec, payload).Some? && !Unencodable(codec, payload) ==>
            !CarriesReasoning(codec, Normalized(codec, payload).value))
      && (Normalized(codec, payload) == None <==>
            && codec.decode(payload).Some?
            && exists i :: 0 <= i < |codec.decode(payload).value.choices|
                 && IsPureReasoning(codec.decode(payload).value.choices[i]))
  {
    var payload := pre + "reasoning_content" + post;
    ContainsInfix(pre, "reasoning_content", post);
    assert Suspicious(payload);
    hide Suspicious, Contains, CarriesReasoning;
    if Normalized(codec, payload).Some? { ForwardedReasoningIff(codec, payload); }
    assert forall c :: PureReasoning(c) <==> IsPureReasoning(c);
  }

  /** The drop rule, spelled out. */
  predicate IsPureReasoning(c: Choice) {
    match c
    case Choice(Some(Delta(Null, true, _)), None) => true
    case Choice(Some(Delta(Text(""), true, _)), None) => true
    case _ => false
  }

  /** A stop chunk with an empty delta reaches the client with an empty text. */
  lemma EmptyDeltaIsFilled(codec: Codec, pre: string, delta: string, post: string, i: nat)
    requires Lawful(codec) && (delta == "\"delta\":{}" || delta == "\"delta\": {}")
    requires var payload := pre + delta + post;
      && codec.decode(payload).Some? && Normalized(codec, payload).Some? && !Unencodable(codec, payload)
      && i < |codec.decode(payload).value.choices| && codec.decode(payload).value.choices[i].finishReason.Some?
    ensures var out := codec.decode(Normalized(codec, pre + delta + post).value);
      out.Some? && i < |out.value.choices| && out.value.choices[i].delta.Some? && out.value.choices[i].delta.value.content != Null
  {
    var payload := pre + delta + post;
    ContainsInfix(pre, delta, post);
    assert Suspicious(payload);
    hide Suspicious, Contains, Dropped;
    var chunk := codec.decode(payload).value;
    assert CleanedAll(chunk.choices)[i] == Cleaned(chunk.choices[i]);
  }

  /** Normalising again changes nothing. */
  lemma NormalizeIsIdempotent(codec: Codec, payload: string)
    requires Lawful(codec) && Normalized(codec, payload).Some?
    ensures Normalized(codec, Normalized(codec, payload).value) == Normalized(codec, payload)
  {
    hide Contains, Suspicious;
    var out := Normalized(codec, payload).value;
    if out != payload {
      var chunk := codec.decode(payload).value;
      var clean := CleanedAll(chunk.choices);
      assert codec.decode(out) == Some(chunk.(choices := clean));
      assert forall i :: 0 <= i < |clean| ==> Cleaned(clean[i]) == clean[i] && !PureReasoning(clean[i]);
      assert CleanedAll(clean) == clean;
    }
  }

  /** Something a client must not miss: text, or the stop signal. */
  predicate Visible(c: Choice) {
    c.finishReason.Some? || (c.delta.Some? && !Empty(c.delta.value.content))
  }

  ghost predicate LosesVisible(codec: Codec, payload: string) {
    && codec.decode(payload).Some? && Normalized(codec, payload) == None
    && exists i :: 0 <= i < |codec.decode(payload).value.choices| && Visible(codec.decode(payload).value.choices[i])
  }

  /** Two choices of which one is pure reasoning and the other is visible. */
  ghost predicate Mixed(cs: seq<Choice>) {
    exists i, j :: 0 <= i < |cs| && 0 <= j < |cs| && PureReasoning(cs[i]) && Visible(cs[j])
  }

  /** Text and stop signals get through unless another choice of the same chunk
      is pure reasoning; a chunk of one choice never loses them. */
  lemma VisibleIsLostIff(codec: Codec, payload: string)
    ensures LosesVisible(codec, payload)
      <==> Suspicious(payload) && codec.decode(payload).Some? && Mixed(codec.decode(payload).value.choices)
    ensures codec.decode(payload).Some? && |codec.decode(payload).value.choices| <= 1 ==> !LosesVisible(codec, payload)
  {
    hide Suspicious;
    if codec.decode(payload).Some? {
      var cs := codec.decode(payload).value.choices;
      assert forall i :: 0 <= i < |cs| && PureReasoning(cs[i]) ==> !Visible(cs[i]);
      if LosesVisible(codec, payload) {
        var i :| 0 <= i < |cs| && PureReasoning(cs[i]);
        var j :| 0 <= j < |cs| && Visible(cs[j]);
        assert PureReasoning(cs[i]) && Visible(cs[j]);
      }
    }
  }
}

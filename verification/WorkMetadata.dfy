/**
  The Work metadata envelope: a bounded base64url token in a link inside a task's Source, read back
  only when it is well formed, canonical and valid.
*/
module WorkMetadata {
  import opened Wrappers
  import opened Text
  import opened Base64Url

  const PROTOCOL := "cos-work://"
  const LINK_HEAD := "[Work details](cos-work://v1/"
  const MAX_BYTES: nat := 16384
  const MAX_REFS: nat := 8
  const PHASES := ["mentioned", "planned", "draft", "built", "qa"]

  datatype Meeting = Meeting(recordId: string, domain: string, month: string, filename: string, title: string)

  /** Each field present or absent, as in the stored object. */
  datatype Metadata = Metadata(workflowPhase: Option<string>, workIdentity: Option<string>,
                               meetingRefs: Option<seq<Meeting>>)

  const NoMetadata := Metadata(None, None, None)

  // ------------------------------------------------------------- validity

  predicate IsField(s: string, limit: nat) {
    !IsBlank(s) && |s| <= limit && forall i :: 0 <= i < |s| ==> s[i] >= ' ' && s[i] != '\U{7F}'
  }

  predicate IsMonth(s: string) {
    |s| == 7 && (forall i :: 0 <= i < 7 && i != 4 ==> '0' <= s[i] <= '9') && s[4] == '-'
    && ((s[5] == '0' && s[6] != '0') || (s[5] == '1' && s[6] <= '2'))
  }

  predicate ValidMeeting(m: Meeting) {
    IsField(m.recordId, 512) && IsField(m.domain, 64) && IsField(m.month, 7) && IsField(m.filename, 255)
    && IsField(m.title, 300)
    && IsTrimmed(m.domain) && m.domain[0] != '.' && '/' !in m.domain && '\\' !in m.domain && IsMonth(m.month)
    && '/' !in m.filename && '\\' !in m.filename && At(m.filename, |m.filename| - 3, ".md")
    && m.filename != ".md" && m.filename != "..md"
  }

  predicate IsWorkIdentity(s: string)
  {
    |s| == 12 && forall i :: 0 <= i < 12 ==> 'a' <= s[i] <= 'f' || '0' <= s[i] <= '9'
  }

  predicate Valid(m: Metadata) {
    (m.workflowPhase.Some? ==> m.workflowPhase.value in PHASES)
    && (m.workIdentity.Some? ==> IsWorkIdentity(m.workIdentity.value))
    && (m.meetingRefs.Some? ==>
          |m.meetingRefs.value| <= MAX_REFS
          && (forall i :: 0 <= i < |m.meetingRefs.value| ==> ValidMeeting(m.meetingRefs.value[i]))
          && forall i, j :: 0 <= i < j < |m.meetingRefs.value| ==>
             m.meetingRefs.value[i].recordId != m.meetingRefs.value[j].recordId)
  }

  // ------------------------------------------------------------- the codec

  /** The JSON text of metadata, and its reader; `None` for bytes that are no such object. */
  datatype Codec = Codec(encode: Metadata -> seq<Byte>, decode: seq<Byte> -> Option<Metadata>)

  ghost predicate RoundTrips(codec: Codec) { 
    forall m :: Valid(m) ==> codec.encode(m) != [] && codec.decode(codec.encode(m)) == Some(m)
  }

  // ------------------------------------------------------------- links

  /** Where the token characters from `i` on end. */
  function TokenEnd(s: string, i: nat): (e: nat)
    requires i <= |s|
    ensures i <= e <= |s| && (forall k :: i <= k < e ==> IsDigit(s[k])) && (e < |s| ==> !IsDigit(s[e]))
    decreases |s| - i
  {
    if i < |s| && IsDigit(s[i]) then TokenEnd(s, i + 1) else i
  }

  /** Just past a link that starts at `i`. */
  function LinkEnd(s: string, i: nat): Option<nat> {
    if !At(s, i, LINK_HEAD) then None
    else
      var start := i + |LINK_HEAD|;
      var e := TokenEnd(s, start);
      if e > start && e < |s| && s[e] == ')' then Some(e + 1) else None
  }

  /** The links of a text from `from` on, left to right, as start and end. */
  function Links(s: string, from: nat): seq<(nat, nat)>
    decreases |s| - from
  {
    if from >= |s| then []
    else if LinkEnd(s, from).Some? && LinkEnd(s, from).value > from
      then [(from, LinkEnd(s, from).value)] + Links(s, LinkEnd(s, from).value)
    else Links(s, from + 1)
  }

  predicate Mentions(s: string) { Contains(LowerAll(s), PROTOCOL) }

  // ------------------------------------------------------------- decode and write

  datatype Decoded = Decoded(source: Option<string>, metadata: Metadata, invalid: bool)

  function OrNone(s: string): Option<string> { if s == "" then None else Some(s) }

  /** The data of a canonical token within bounds. */
  function TokenData(token: string): Option<seq<Byte>> {
    if |token| > MAX_BYTES * 4 / 3 + 4 || Decode(token).None? then None
    else if |Decode(token).value| > MAX_BYTES || Encode(Decode(token).value) != token then None
    else Decode(token)
  }

  function DecodeSource(codec: Codec, source: Option<string>): Decoded {
    if source.None? || source.value == "" || !Mentions(source.value) then Decoded(source, NoMetadata, false)
    else
      var s := source.value;
      var links := Links(s, 0);
      if |links| != 1 || Count(LowerAll(s), PROTOCOL, 0) != 1 then Decoded(source, NoMetadata, true)
      else DecodeLink(codec, s, links[0].0, links[0].1)
  }

  function DecodeLink(codec: Codec, s: string, start: nat, end: nat): Decoded {
    if !(start + |LINK_HEAD| < end <= |s|) then Decoded(Some(s), NoMetadata, true)
    else
      var data := TokenData(s[start + |LINK_HEAD|..end - 1]);
      if data.None? || codec.decode(data.value).None? || !Valid(codec.decode(data.value).value)
        then Decoded(Some(s), NoMetadata, true)
      else Decoded(OrNone(Strip(s[..start] + s[end..])), codec.decode(data.value).value, false)
  }

  function LinkOf(codec: Codec, m: Metadata): string { LINK_HEAD + Encode(codec.encode(m)) + ")" }

  /** `None` is refused: a source whose metadata does not read back, or metadata outside its schema or size. */
  function WriteSource(codec: Codec, source: Option<string>, m: Metadata): Option<string> {
    var was := DecodeSource(codec, source);
    if was.invalid || !Valid(m) || |codec.encode(m)| > MAX_BYTES then None
    else Some((if was.source.Some? && was.source.value != "" then was.source.value + " " else "") + LinkOf(codec, m))
  }

  // ------------------------------------------------------------- one link, one mention

  lemma MentionAt(s: string, j: nat)
    requires At(LowerAll(s), j, PROTOCOL)
    ensures j + 11 <= |s| && s[j + 8] == ':'
    ensures forall k :: j <= k < j + 11 ==> s[k] != ' '
  {
    assert |PROTOCOL| == 11 && PROTOCOL[8] == ':' && ' ' !in PROTOCOL;
    var low := LowerAll(s);
    assert low[j..j + 11][8] == low[j + 8];
    forall k | j <= k < j + 11 ensures s[k] != ' ' {
      assert low[k] == low[j..j + 11][k - j] == PROTOCOL[k - j];
      assert Lower(' ') == ' ';
    }
  }

  lemma MentionWithin(s: string, clean: string, j: nat)
    requires clean <= s && At(LowerAll(s), j, PROTOCOL) && j + 11 <= |clean|
    ensures Mentions(clean)
  {
    assert |PROTOCOL| == 11;
    assert LowerAll(clean)[j..j + 11] == LowerAll(s)[j..j + 11];
    assert At(LowerAll(clean), j, PROTOCOL);
  }

  /** In a text that ends in a link, after nothing or after a blank, the link's own mention is the only new one. */
  lemma OnlyMention(clean: string, token: string, j: nat)
    requires AllDigits(token) && (clean == "" || clean[|clean| - 1] == ' ') && !Mentions(clean)
    ensures var s := clean + LINK_HEAD + token + ")"; At(LowerAll(s), j, PROTOCOL) ==> j == |clean| + 15
  {
    hide Mentions, LowerAll;
    var s := clean + LINK_HEAD + token + ")";
    if At(LowerAll(s), j, PROTOCOL) {
      MentionAt(s, j);
      assert clean != "" ==> s[|clean| - 1] == ' ';
      if j + 11 <= |clean| {
        MentionWithin(s, clean, j);
        assert false;
      } else {
        assert j + 8 >= |clean|;
        ColonIn(clean, token, j + 8);
      }
    }
  }

  lemma ColonIn(clean: string, token: string, k: nat)
    requires AllDigits(token) && |clean| <= k < |clean + LINK_HEAD + token + ")"|
    requires (clean + LINK_HEAD + token + ")")[k] == ':'
    ensures k == |clean| + 23
  {
    HeadColon();
    var s, n := clean + LINK_HEAD + token + ")", |clean|;
    assert forall i :: 0 <= i < 29 ==> s[n + i] == LINK_HEAD[i];
    assert forall t :: 0 <= t < |token| ==> s[n + 29 + t] == token[t] != ':';
    assert s[n + 29 + |token|] == ')';
  }

  lemma HeadColon()
    ensures |LINK_HEAD| == 29 && forall i :: 0 <= i < 29 ==> (LINK_HEAD[i] == ':' <==> i == 23)
  {
    assert ':' !in LINK_HEAD[..23] && LINK_HEAD[23] == ':' && ':' !in LINK_HEAD[24..];
    assert forall i :: 0 <= i < 23 ==> LINK_HEAD[..23][i] == LINK_HEAD[i];
    assert forall i :: 24 <= i < 29 ==> LINK_HEAD[24..][i - 24] == LINK_HEAD[i];
  }

  lemma HeadMentions(s: string, i: nat)
    requires At(s, i, LINK_HEAD)
    ensures At(LowerAll(s), i + 15, PROTOCOL)
  {
    assert |LINK_HEAD| == 29 && |PROTOCOL| == 11;
    var low := LowerAll(s);
    forall k | 0 <= k < 11 ensures low[i + 15 + k] == PROTOCOL[k] {
      assert s[i..i + 29][15 + k] == s[i + 15 + k] == LINK_HEAD[15 + k];
      assert LINK_HEAD[15 + k] == PROTOCOL[k] && Lower(PROTOCOL[k]) == PROTOCOL[k];
    }
    assert low[i + 15..i + 26] == PROTOCOL;
  }

  lemma MentionOf(clean: string, token: string)
    ensures At(clean + LINK_HEAD + token + ")", |clean|, LINK_HEAD)
  {
    var s := clean + LINK_HEAD + token + ")";
    assert s[|clean|..|clean| + |LINK_HEAD|] == LINK_HEAD;
  }

  lemma {:induction false} TokenEndIs(s: string, i: nat, e: nat)
    requires i <= e < |s| && (forall k :: i <= k < e ==> IsDigit(s[k])) && !IsDigit(s[e])
    ensures TokenEnd(s, i) == e
    decreases e - i
  {
    hide IsDigit;
    if i < e { TokenEndIs(s, i + 1, e); }
  }

  lemma {:induction false} OneLink(s: string, from: nat, at: nat, end: nat)
    requires from <= at < end <= |s| && LinkEnd(s, at) == Some(end)
    requires forall i :: 0 <= i < |s| && At(s, i, LINK_HEAD) ==> i == at
    ensures Links(s, from) == [(at, end)]
    decreases at - from
  {
    if from < at {
      OneLink(s, from + 1, at, end);
    } else {
      NoLinks(s, end);
    }
  }

  lemma {:induction false} NoLinks(s: string, from: nat)
    requires forall i :: from <= i < |s| ==> !At(s, i, LINK_HEAD)
    ensures Links(s, from) == []
    decreases |s| - from
  {
    if from < |s| { NoLinks(s, from + 1); }
  }

  /** A written source holds one link and mentions the protocol once, in that link. */
  lemma WrittenHasOneLink(clean: string, token: string)
    requires AllDigits(token) && token != "" && (clean == "" || clean[|clean| - 1] == ' ') && !Mentions(clean)
    ensures var s := clean + LINK_HEAD + token + ")";
            Mentions(s) && Links(s, 0) == [(|clean|, |s|)] && Count(LowerAll(s), PROTOCOL, 0) == 1
  {
    hide Mentions, LowerAll, IsDigit, At;
    var s := clean + LINK_HEAD + token + ")";
    var n := |clean|;
    assert |LINK_HEAD| == 29;
    MentionOf(clean, token);
    HeadMentions(s, n);
    MentionsIt(s, n + 15);
    forall i | 0 <= i < |s| && At(s, i, LINK_HEAD) ensures i == n {
      HeadMentions(s, i);
      OnlyMention(clean, token, i + 15);
    }
    forall i | 0 <= i <= |LowerAll(s)| && At(LowerAll(s), i, PROTOCOL) ensures i == n + 15 {
      OnlyMention(clean, token, i);
    }
    CountsOne(LowerAll(s), PROTOCOL, n + 15, 0);
    assert forall k :: n + 29 <= k < n + 29 + |token| ==> s[k] == token[k - n - 29];
    NotDigit();
    TokenEndIs(s, n + 29, n + 29 + |token|);
    OneLink(s, 0, n, |s|);
  }

  lemma NotDigit()
    ensures !IsDigit(')') && PROTOCOL != ""
  {
  }

  lemma MentionsIt(s: string, j: nat)
    requires At(LowerAll(s), j, PROTOCOL)
    ensures Mentions(s)
  {
  }

  lemma TokenDataOf(data: seq<Byte>)
    requires |data| <= MAX_BYTES
    ensures TokenData(Encode(data)) == Some(data)
  {
    DecodeUndoesEncode(data);
  }

  /** A token contributes data only if it is the canonical encoding of that data, within the size bound. */
  lemma TokenDataExactly(token: string, data: seq<Byte>)
    ensures TokenData(token) == Some(data) <==> token == Encode(data) && |data| <= MAX_BYTES
  {
    hide Encode, Decode;
    if token == Encode(data) && |data| <= MAX_BYTES { TokenDataOf(data); }
  }

  /** What a source without the protocol looks like once a link is written after it. */
  function Lead(source: Option<string>): string {
    if source.Some? && source.value != "" then source.value + " " else ""
  }

  lemma LeadIsClean(source: Option<string>)
    requires source.None? || !Mentions(source.value)
    ensures !Mentions(Lead(source)) && (Lead(source) == "" || Lead(source)[|Lead(source)| - 1] == ' ')
  {
    assert |PROTOCOL| == 11;
    if source.Some? && source.value != "" {
      forall j | 0 <= j <= |LowerAll(Lead(source))| ensures !At(LowerAll(Lead(source)), j, PROTOCOL) {
        if At(LowerAll(Lead(source)), j, PROTOCOL) {
          MentionAt(Lead(source), j);
          assert Lead(source)[|source.value|] == ' ';
          MentionWithin(Lead(source), source.value, j);
          assert false;
        }
      }
    }
  }

  /**
    The envelope round trip: for valid metadata and a source without the protocol, what was written decodes
    to the source trimmed, the metadata, and no error.
  */
  lemma DecodeUndoesWrite(codec: Codec, source: Option<string>, m: Metadata)
    requires RoundTrips(codec) && Valid(m) && |codec.encode(m)| <= MAX_BYTES
    requires source.None? || !Mentions(source.value)
    ensures var written := WriteSource(codec, source, m);
            written.Some? && Mentions(written.value)
            && DecodeSource(codec, written) == Decoded(OrNone(Strip(OrElse(source))), m, false)
  {
    hide Mentions, Encode, Strip, Valid, Links, Count, TokenData;
    var data := codec.encode(m);
    var token, clean := Encode(data), Lead(source);
    EncodeDigits(data);
    LengthOf(data);
    LeadIsClean(source);
    WrittenHasOneLink(clean, token);
    TokenDataOf(data);
    var s := clean + LINK_HEAD + token + ")";
    assert clean + LinkOf(codec, m) == s;
    assert s[|clean| + |LINK_HEAD|..|s| - 1] == token;
    assert s[..|clean|] + s[|s|..] == clean;
    assert Strip(clean) == Strip(OrElse(source)) by { StripLead(source); }
  }

  function OrElse(source: Option<string>): string { if source.Some? then source.value else "" }

  lemma LengthOf(data: seq<Byte>)
    requires data != []
    ensures Encode(data) != ""
  {
  }

  lemma StripLead(source: Option<string>)
    ensures Strip(Lead(source)) == Strip(OrElse(source))
  {
    hide Strip;
    if source.Some? && source.value != "" {
      assert "" + source.value + " " == Lead(source);
      StripAround("", source.value, " ");
    }
  }

  /** Writing again replaces: the second write is what writing the second metadata to the trimmed source gives. */
  lemma SecondWriteReplaces(codec: Codec, source: Option<string>, m: Metadata, m2: Metadata)
    requires RoundTrips(codec) && Valid(m) && |codec.encode(m)| <= MAX_BYTES
    requires source.None? || !Mentions(source.value)
    ensures WriteSource(codec, WriteSource(codec, source, m), m2)
            == WriteSource(codec, OrNone(Strip(OrElse(source))), m2)
  {
    DecodeUndoesWrite(codec, source, m);
    StripMentions(OrElse(source));
    hide Valid, Strip, Links, Count, TokenData, DecodeLink;
  }

  lemma StripMentions(s: string)
    requires !Mentions(s)
    ensures !Mentions(Strip(s))
  {
    hide Strip;
    var left, right := StripParts(s);
    forall j | 0 <= j <= |LowerAll(Strip(s))| ensures !At(LowerAll(Strip(s)), j, PROTOCOL) {
      MentionInside(left, Strip(s), right, j);
    }
  }

  lemma MentionInside(left: string, r: string, right: string, j: nat)
    ensures At(LowerAll(r), j, PROTOCOL) ==> Mentions(left + r + right)
  {
    assert |PROTOCOL| == 11;
    var s := left + r + right;
    if At(LowerAll(r), j, PROTOCOL) {
      assert LowerAll(s)[|left| + j..|left| + j + 11] == LowerAll(r)[j..j + 11];
      assert At(LowerAll(s), |left| + j, PROTOCOL);
    }
  }

  /** The text holds a link, at `at`, to the canonical encoding of this data. */
  predicate Carries(s: string, at: nat, data: seq<Byte>) {
    |data| <= MAX_BYTES && At(s, at, LINK_HEAD) && At(s, at + |LINK_HEAD|, Encode(data))
    && At(s, at + |LINK_HEAD| + |Encode(data)|, ")")
  }

  /** Metadata that does not read back has no authority: the source is preserved as it is, with an empty record. */
  lemma InvalidIsPreserved(codec: Codec, source: Option<string>)
    ensures var d := DecodeSource(codec, source);
            (d.invalid ==>
              d.source == source && d.metadata == NoMetadata && forall m :: WriteSource(codec, source, m) == None)
            && (!d.invalid && d.metadata != NoMetadata ==>
                  Valid(d.metadata) && source.Some?
                  && exists at: nat, data: seq<Byte> ::
                       Carries(source.value, at, data) && codec.decode(data) == Some(d.metadata))
  {
    hide Encode, Decode, Valid, Mentions, Links, Count, Strip, TokenData, Carries;
    var d := DecodeSource(codec, source);
    if !d.invalid && d.metadata != NoMetadata {
      var s := source.value;
      var (start, end) := Links(s, 0)[0];
      LinksAreLinks(s, 0);
      var token := s[start + |LINK_HEAD|..end - 1];
      var data := TokenData(token).value;
      TokenDataExactly(token, data);
      CarriesIt(s, start, end, data);
    }
  }

  /** What is left of a source that carries metadata is trimmed, and never the empty string. */
  lemma RestIsTrimmed(codec: Codec, source: Option<string>)
    requires DecodeSource(codec, source).metadata != NoMetadata
    ensures IsTrimmed(OrElse(DecodeSource(codec, source).source)) && DecodeSource(codec, source).source != Some("")
    ensures OrNone(OrElse(DecodeSource(codec, source).source)) == DecodeSource(codec, source).source
  {
    hide Mentions, Valid, TokenData, Links, Count, Strip, IsTrimmed, LowerAll;
    var (start, end) := Links(source.value, 0)[0];
    StripTrims(source.value[..start] + source.value[end..]);
    StripTrims("");
    assert Strip("") == "" by { EmptyStrips(); }
  }

  lemma EmptyStrips()
    ensures Strip("") == ""
  {
  }

  /** Writing over metadata that reads back is writing behind what it leaves, as long as that mentions no protocol. */
  lemma WriteFromRest(codec: Codec, source: Option<string>, m: Metadata)
    requires var read := DecodeSource(codec, source);
             !read.invalid && (read.source.Some? ==> !Mentions(read.source.value))
    ensures WriteSource(codec, source, m) == WriteSource(codec, DecodeSource(codec, source).source, m)
  {
    hide Mentions, Valid, Links, Count, LinkOf, DecodeLink;
  }

  /**
    Writing over metadata that reads back keeps the words and reads back as the new metadata if and only if the words
    left without the link do not spell the protocol themselves.
  */
  lemma RewrittenReadsBackExactly(codec: Codec, source: Option<string>, m: Metadata)
    requires RoundTrips(codec) && Valid(m) && |codec.encode(m)| <= MAX_BYTES
    requires var read := DecodeSource(codec, source); !read.invalid && read.metadata != NoMetadata
    ensures var rest := DecodeSource(codec, source).source;
            DecodeSource(codec, WriteSource(codec, source, m)) == Decoded(rest, m, false) <==>
              rest.None? || !Mentions(rest.value)
  {
    hide Mentions, Valid, LinkOf, DecodeLink, DecodeSource, Links, Count;
    var rest := DecodeSource(codec, source).source;
    RestIsTrimmed(codec, source);
    if rest.None? || !Mentions(rest.value) {
      WriteFromRest(codec, source, m);
      DecodeUndoesWrite(codec, rest, m);
      TrimmedStays(OrElse(rest));
    } else {
      LinkStarts(codec, m);
      TwiceMentioned(rest.value, LinkOf(codec, m));
      assert WriteSource(codec, source, m) == Some(rest.value + " " + LinkOf(codec, m));
      TwoMentionsAreInvalid(codec, rest.value + " " + LinkOf(codec, m));
    }
  }

  lemma LinkStarts(codec: Codec, m: Metadata)
    ensures LINK_HEAD <= LinkOf(codec, m)
  {
  }

  lemma TwoMentionsAreInvalid(codec: Codec, s: string)
    requires s != "" && Count(LowerAll(s), PROTOCOL, 0) > 1 && Mentions(s)
    ensures DecodeSource(codec, Some(s)).invalid
  {
    hide Count, Mentions, Links, DecodeLink;
  }

  lemma TwiceMentioned(rest: string, link: string)
    requires Mentions(rest) && LINK_HEAD <= link
    ensures Count(LowerAll(rest + " " + link), PROTOCOL, 0) > 1 && Mentions(rest + " " + link)
  {
    hide Count;
    var s := rest + " " + link;
    var j :| 0 <= j <= |LowerAll(rest)| && At(LowerAll(rest), j, PROTOCOL);
    assert LowerAll(s)[j..j + |PROTOCOL|] == LowerAll(rest)[j..j + |PROTOCOL|];
    var at := |rest| + 1;
    assert |LINK_HEAD| == 29 && |PROTOCOL| == 11;
    assert s[at..at + 29] == link[..29];
    HeadMentions(s, at);
    GreedyIsMost(LowerAll(s), PROTOCOL, 0, [j, at + 15]);
  }

  lemma {:induction false} LinksAreLinks(s: string, from: nat)
    ensures forall i :: 0 <= i < |Links(s, from)| ==> LinkEnd(s, Links(s, from)[i].0) == Some(Links(s, from)[i].1)
    decreases |s| - from
  {
    hide LinkEnd;
    if from < |s| {
      LinksAreLinks(s, from + 1);
      if LinkEnd(s, from).Some? && LinkEnd(s, from).value > from { LinksAreLinks(s, LinkEnd(s, from).value); }
    }
  }

  lemma CarriesIt(s: string, start: nat, end: nat, data: seq<Byte>)
    requires LinkEnd(s, start) == Some(end) && |data| <= MAX_BYTES
    requires start + |LINK_HEAD| < end <= |s| && s[start + |LINK_HEAD|..end - 1] == Encode(data)
    ensures Carries(s, start, data)
  {
    hide Encode;
    assert |Encode(data)| == end - 1 - start - |LINK_HEAD|;
    assert s[end - 1..end] == ")";
  }

  // ------------------------------------------------------------- the phase a stage shows

  function LegacyStage(phase: string): Option<string> {
    if phase == "mentioned" || phase == "planned" then Some("planning")
    else if phase == "draft" || phase == "built" then Some("active")
    else if phase == "qa" then Some("review")
    else None
  }

  function DefaultPhase(stage: string): string {
    if stage == "active" then "draft" else if stage == "review" then "qa" else "planned"
  }

  function PhaseFor(stage: Option<string>, checked: bool, m: Metadata): string {
    var legacy := if stage.Some? && stage.value != "" then stage.value else "planning";
    if checked then "complete"
    else if m.workflowPhase.Some? && LegacyStage(m.workflowPhase.value) == Some(legacy) then m.workflowPhase.value
    else DefaultPhase(legacy)
  }

  /** The phase shown always agrees with the row's stage marker; stored metadata only refines it. */
  lemma PhaseAgreesWithStage(stage: Option<string>, m: Metadata)
    requires stage.None? || stage.value in ["planning", "active", "review"]
    ensures LegacyStage(PhaseFor(stage, false, m)) == Some(if stage.Some? then stage.value else "planning")
    ensures PhaseFor(stage, true, m) == "complete"
    ensures m.workflowPhase.Some? && LegacyStage(m.workflowPhase.value) == LegacyStage(PhaseFor(stage, false, m)) ==>
              PhaseFor(stage, false, m) == m.workflowPhase.value
  {
  }
}

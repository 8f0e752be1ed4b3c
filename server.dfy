/**
 * The local helpers of the Express server (server.js): secret masking for the
 * log, server URL normalisation, the slug and the synthetic `user` value of the
 * web-client request, display-name inference from a conference payload, the
 * runtime-config injection into the page, locale resolution and the check of
 * the required environment variables.
 */
module Server {
  import opened Wrappers
  import opened JsValues
  import opened Text

  // ---------------------------------------------------------------------------
  // maskSecret

  /** The form in which a secret is written to the log. */
  function MaskSecret(secret: string): (r: string)
    ensures secret == "" ==> r == ""
    ensures |secret| <= 6 ==> |r| == |secret| && forall k :: 0 <= k < |r| ==> r[k] == '*'
    ensures |secret| > 6 ==> |r| == 9 && r[..3] == secret[..3] && r[3..6] == "***" && r[6..] == secret[|secret| - 3..]
  {
    if secret == "" then ""
    else if |secret| <= 6 then Repeat('*', |secret|)
    else secret[..3] + "***" + secret[|secret| - 3..]
  }

  /**
   * The log reveals nothing of a secret but its length, its first three and its
   * last three characters: two secrets that agree on those are masked alike.
   */
  lemma MaskHidesMiddle(a: string, b: string)
    requires |a| == |b|
    requires |a| > 6 ==> a[..3] == b[..3] && a[|a| - 3..] == b[|b| - 3..]
    ensures MaskSecret(a) == MaskSecret(b)
  {
  }

  // ---------------------------------------------------------------------------
  // normalizeServerUrl

  /** `/^https?:\/\//i.test(s)`. */
  predicate HasHttpScheme(s: string) {
    MatchesAt(s, 0, "http://", true) || MatchesAt(s, 0, "https://", true)
  }

  /** `s.replace(/\/+$/, '')`: the longest prefix of `s` that does not end in `/`, all after it being `/`. */
  function StripTrailingSlashes(s: string): (r: string)
    ensures |r| <= |s| && r == s[..|r|]
    ensures r == [] || r[|r| - 1] != '/'
    ensures forall k :: |r| <= k < |s| ==> s[k] == '/'
  {
    if s != [] && s[|s| - 1] == '/' then StripTrailingSlashes(s[..|s| - 1]) else s
  }

  /**
   * The base URL of the conferencing server: `https://` is put in front unless
   * an `http://` or `https://` scheme (in any case) is already there, and then
   * every trailing slash is removed.
   */
  function NormalizeServerUrl(value: string): (r: string)
    ensures |r| >= 5 && r[|r| - 1] != '/'
    ensures HasHttpScheme(value) ==>
      |r| <= |value| && r == value[..|r|] && forall k :: |r| <= k < |value| ==> value[k] == '/'
    ensures !HasHttpScheme(value) ==>
      var full := "https://" + value;
      |r| <= |full| && r == full[..|r|] && forall k :: |r| <= k < |full| ==> full[k] == '/'
  {
    var full := if HasHttpScheme(value) then value else "https://" + value;
    assert LowerAsciiString(full[..7])[4] == LowerAscii(full[4]) == ':' || LowerAsciiString(full[..8])[4] == LowerAscii(full[4]) == 's';
    StripTrailingSlashes(full)
  }

  /** A normalised URL that still carries its scheme is left as it is by a second normalisation. */
  lemma NormalizeIdempotent(value: string)
    requires HasHttpScheme(NormalizeServerUrl(value))
    ensures NormalizeServerUrl(NormalizeServerUrl(value)) == NormalizeServerUrl(value)
  {
  }

  // ---------------------------------------------------------------------------
  // slugifyName

  predicate IsSlugChar(c: char) {
    'a' <= c <= 'z' || '0' <= c <= '9' || c == '_'
  }

  predicate NoSpace(s: string) {
    forall k :: 0 <= k < |s| ==> !IsJsSpace(s[k])
  }

  predicate AllSpace(s: string) {
    forall k :: 0 <= k < |s| ==> IsJsSpace(s[k])
  }

  /** `s.replace(/\s+/g, '_')`: every maximal run of whitespace becomes one `_`. */
  function CollapseSpaces(s: string): (r: string)
    ensures NoSpace(r)
    ensures |r| <= |s|
    decreases |s|
  {
    if s == [] then []
    else if IsJsSpace(s[0]) then "_" + CollapseSpaces(TrimStart(s))
    else [s[0]] + CollapseSpaces(s[1..])
  }

  /** Text without whitespace goes through `CollapseSpaces` unchanged. */
  lemma {:induction false} CollapseWithoutSpace(u: string)
    requires NoSpace(u)
    ensures CollapseSpaces(u) == u
  {
    if u != [] {
      CollapseWithoutSpace(u[1..]);
    }
  }

  /** A run of whitespace between text without whitespace and a non-whitespace character becomes exactly one `_`. */
  lemma {:induction false} CollapseRun(u: string, w: string, v: string)
    requires NoSpace(u) && w != [] && AllSpace(w)
    requires v == [] || !IsJsSpace(v[0])
    ensures CollapseSpaces(u + w + v) == u + "_" + CollapseSpaces(v)
  {
    if u == [] {
      var s := w + v;
      assert u + w + v == s;
      TrimStartPastRun(w, v);
      assert s[0] == w[0];
    } else {
      assert (u + w + v)[1..] == u[1..] + w + v;
      CollapseRun(u[1..], w, v);
    }
  }

  lemma {:induction false} TrimStartPastRun(w: string, v: string)
    requires AllSpace(w)
    requires v == [] || !IsJsSpace(v[0])
    ensures TrimStart(w + v) == v
  {
    if w != [] {
      assert (w + v)[1..] == w[1..] + v;
      TrimStartPastRun(w[1..], v);
    }
  }

  /** `s.replace(/[^a-z0-9_]/g, '')`. */
  function KeepSlugChars(s: string): (r: string)
    ensures |r| <= |s|
    ensures forall k :: 0 <= k < |r| ==> IsSlugChar(r[k])
    ensures forall k :: 0 <= k < |s| && IsSlugChar(s[k]) ==> s[k] in r
  {
    if s == [] then []
    else if IsSlugChar(s[0]) then [s[0]] + KeepSlugChars(s[1..])
    else KeepSlugChars(s[1..])
  }

  /** Text made only of slug characters passes the filter unchanged. */
  lemma {:induction false} KeepSlugCharsOfSlug(s: string)
    requires forall k :: 0 <= k < |s| ==> IsSlugChar(s[k])
    ensures KeepSlugChars(s) == s
  {
    if s != [] {
      KeepSlugCharsOfSlug(s[1..]);
    }
  }

  /** The filter works character by character: it distributes over concatenation. */
  lemma {:induction false} KeepSlugCharsAppend(a: string, b: string)
    ensures KeepSlugChars(a + b) == KeepSlugChars(a) + KeepSlugChars(b)
  {
    if a != [] {
      assert (a + b)[1..] == a[1..] + b;
      KeepSlugCharsAppend(a[1..], b);
    } else {
      assert a + b == b;
    }
  }

  /** Text with no slug character is filtered away completely. */
  lemma {:induction false} KeepSlugCharsOfOthers(s: string)
    requires forall k :: 0 <= k < |s| ==> !IsSlugChar(s[k])
    ensures KeepSlugChars(s) == []
  {
    if s != [] {
      KeepSlugCharsOfOthers(s[1..]);
    }
  }

  /** What survives lower-casing, whitespace collapsing and filtering of transliterated text. */
  function SlugChars(transliterated: string): (r: string)
    ensures |r| <= |transliterated|
    ensures forall k :: 0 <= k < |r| ==> IsSlugChar(r[k])
  {
    KeepSlugChars(CollapseSpaces(LowerAsciiString(transliterated)))
  }

  const FallbackSlug := "guest_user"
  const MaxSlugLength := 100

  /**
   * The slug made from a transliterated name: at most 100 characters of what
   * survives, or `guest_user` when nothing does.
   */
  function SlugFromTransliteration(transliterated: string): (r: string)
    ensures 1 <= |r| <= MaxSlugLength
    ensures forall k :: 0 <= k < |r| ==> IsSlugChar(r[k])
    ensures SlugChars(transliterated) == [] ==> r == FallbackSlug
    ensures SlugChars(transliterated) != [] ==> r <= SlugChars(transliterated)
    ensures |SlugChars(transliterated)| >= MaxSlugLength ==> |r| == MaxSlugLength
    ensures 0 < |SlugChars(transliterated)| <= MaxSlugLength ==> r == SlugChars(transliterated)
  {
    var kept := SlugChars(transliterated);
    var cut := if |kept| <= MaxSlugLength then kept else kept[..MaxSlugLength];
    if cut == [] then FallbackSlug else cut
  }

  /** `slugifyName(value)`; the transliteration library is the parameter `transliterate`. */
  function SlugifyName(value: JsValue, transliterate: JsValue -> string): (r: string)
    ensures 1 <= |r| <= MaxSlugLength
    ensures forall k :: 0 <= k < |r| ==> IsSlugChar(r[k])
  {
    SlugFromTransliteration(transliterate(Or([value], Str(""))))
  }

  /** The `user` query value `2$<slug>*<name>` of the web-client request. */
  function UserQueryValue(displayName: JsValue, transliterate: JsValue -> string): string {
    "2$" + SlugifyName(displayName, transliterate) + "*" + JsToString(displayName)
  }

  /** Reads a `user` value back into its slug and its display name: the text after the first `*`. */
  function ParseUserQueryValue(u: string): Option<(string, string)> {
    if |u| < 2 || u[..2] != "2$" then None
    else match IndexOf(u[2..], "*", false)
      case None => None
      case Some(j) => Some((u[2..2 + j], u[2 + j + 1..]))
  }

  /** The slug holds no `*`, so the display name is recovered from the `user` value whatever it contains. */
  lemma UserQueryValueRoundTrip(displayName: JsValue, transliterate: JsValue -> string)
    ensures ParseUserQueryValue(UserQueryValue(displayName, transliterate))
      == Some((SlugifyName(displayName, transliterate), JsToString(displayName)))
  {
    ParseSlugAndName(SlugifyName(displayName, transliterate), JsToString(displayName));
  }

  lemma ParseSlugAndName(slug: string, name: string)
    requires forall k :: 0 <= k < |slug| ==> IsSlugChar(slug[k])
    ensures ParseUserQueryValue("2$" + slug + "*" + name) == Some((slug, name))
  {
    var u := "2$" + slug + "*" + name;
    var rest := u[2..];
    assert u[..2] == "2$";
    assert rest == slug + "*" + name;
    assert MatchesAt(rest, |slug|, "*", false);
    forall j | 0 <= j < |slug|
      ensures !MatchesAt(rest, j, "*", false)
    {
      assert rest[j] == slug[j];
      assert IsSlugChar(slug[j]);
      assert rest[j..j + 1] == [slug[j]];
    }
    assert IndexOf(rest, "*", false) == Some(|slug|);
    assert u[2..2 + |slug|] == slug;
    assert u[2 + |slug| + 1..] == name;
  }

  // ---------------------------------------------------------------------------
  // inferDisplayName

  const PatientWord := "patient"

  /**
   * Group 1 of a match of `/patient\s+(.+)$/i` that starts at index `i` of `t`:
   * the word `patient` in any case, then what `CaptureAfterWord` takes of the rest.
   */
  function CaptureAt(t: string, i: nat): (r: Option<string>)
    requires i <= |t|
    ensures r.Some? ==> r.value != [] && NoLineTerminator(r.value)
  {
    if !MatchesAt(t, i, PatientWord, true) then None
    else CaptureAfterWord(t[i + |PatientWord|..])
  }

  /**
   * `\s+(.+)$` matched against the text after `patient`, with the backtracking
   * of the greedy `\s+` spelled out: `(.+)$` must reach the end without
   * crossing a line terminator.
   */
  function CaptureAfterWord(rest: string): (r: Option<string>)
    ensures r.Some? ==> r.value != [] && NoLineTerminator(r.value)
  {
    var n := LeadingSpace(rest);
    if n == 0 then None
    else if n < |rest| && NoLineTerminator(rest[n..]) then Some(rest[n..])
    else if n == |rest| && n >= 2 && !IsLineTerminator(rest[n - 1]) then Some(rest[n - 1..])
    else None
  }

  /** The leftmost index at or after `from` where the pattern matches. */
  function FirstMatchIndex(t: string, from: nat): (r: Option<nat>)
    requires from <= |t|
    ensures r.Some? ==> from <= r.value <= |t| && CaptureAt(t, r.value).Some?
    ensures r.Some? ==> forall j :: from <= j < r.value ==> CaptureAt(t, j).None?
    ensures r.None? ==> forall j :: from <= j <= |t| ==> CaptureAt(t, j).None?
    decreases |t| - from
  {
    if CaptureAt(t, from).Some? then Some(from)
    else if from == |t| then None
    else FirstMatchIndex(t, from + 1)
  }

  /** In a trimmed topic a match captures a trimmed, non-empty tail of the topic. */
  lemma CaptureInTrimmed(t: string, i: nat)
    requires i <= |t| && IsTrimmed(t)
    requires CaptureAt(t, i).Some?
    ensures var c := CaptureAt(t, i).value;
      c != [] && IsTrimmed(c) && c == t[|t| - |c|..] && NoLineTerminator(c)
  {
    var j := i + |PatientWord|;
    assert MatchesAt(t, i, PatientWord, true);
    assert CaptureAt(t, i) == CaptureAfterWord(t[j..]);
    CaptureOfTail(t, j, CaptureAt(t, i).value);
  }

  /** What follows the word in a trimmed text is captured as a trimmed tail of that text. */
  lemma CaptureOfTail(t: string, j: nat, c: string)
    requires j <= |t| && IsTrimmed(t)
    requires CaptureAfterWord(t[j..]) == Some(c)
    ensures IsTrimmed(c) && c == t[|t| - |c|..]
  {
    SuffixOfSuffix(t, j, 0);
    CaptureOfEndingText(t[j..], c);
    SuffixOfSuffix(t, j, |c|);
  }

  lemma SuffixOfSuffix(t: string, j: nat, m: nat)
    requires j + m <= |t|
    ensures t[j..][|t| - j - m..] == t[|t| - m..]
    ensures t[j..] == [] || t[j..][|t| - j - 1] == t[|t| - 1]
  {
  }

  /** After the word, a text ending in a non-whitespace character is captured as a trimmed tail of it. */
  lemma CaptureOfEndingText(rest: string, c: string)
    requires rest == [] || !IsJsSpace(rest[|rest| - 1])
    requires CaptureAfterWord(rest) == Some(c)
    ensures IsTrimmed(c) && c == rest[|rest| - |c|..]
  {
    assert rest[LeadingSpace(rest)..] == TrimStart(rest);
  }

  /** The topic the inference reads: the trimmed `topic` when it is a string, else empty. */
  function TopicText(payload: JsValue): (r: string)
    ensures IsTrimmed(r)
    ensures Prop(payload, "topic").Str? ==> r == Trim(Prop(payload, "topic").s)
    ensures !Prop(payload, "topic").Str? ==> r == ""
  {
    match Prop(payload, "topic")
    case Str(s) => Trim(s)
    case _ => ""
  }

  predicate HasDisplayName(inv: JsValue) {
    Truthy(Prop(inv, "display_name"))
  }

  /** The message V8 gives when `payload.invitations?.find` is not callable. */
  const FindNotAFunction := "payload.invitations?.find is not a function"

  /**
   * `inferDisplayName(payload)`: the name put in the synthetic `user` value.
   * `Err` holds what the function throws: a TypeError when `invitations` is
   * present but not an array, so that it has no `find` method.
   */
  function InferDisplayName(payload: JsValue): (r: Result<JsValue, JsValue>)
    ensures !Truthy(payload) || !IsObject(payload) ==> r == Ok(Str("guest"))
    ensures r.Ok? ==> Truthy(r.value)
    ensures Truthy(payload) && IsObject(payload) && TopicText(payload) != [] ==>
      var t := TopicText(payload);
      && (FirstMatchIndex(t, 0).None? ==> r == Ok(Str(t)))
      && (FirstMatchIndex(t, 0).Some? ==> r == Ok(Str(CaptureAt(t, FirstMatchIndex(t, 0).value).value)))
    ensures Truthy(payload) && IsObject(payload) && TopicText(payload) == [] ==>
      var invitations := Prop(payload, "invitations");
      && (r.Err? <==> !IsNullish(invitations) && !invitations.Arr?)
      && (invitations.Arr? && FindIndex(invitations.elems, HasDisplayName, 0).Some? ==>
            r == Ok(Prop(invitations.elems[FindIndex(invitations.elems, HasDisplayName, 0).value], "display_name")))
      && (r.Ok? && (IsNullish(invitations) || FindIndex(invitations.elems, HasDisplayName, 0).None?) ==>
            r == Ok(if Truthy(Prop(payload, "owner")) then Prop(payload, "owner") else Str("guest")))
  {
    if !Truthy(payload) || !IsObject(payload) then Ok(Str("guest"))
    else
      var topic := TopicText(payload);
      if topic != [] then
        match FirstMatchIndex(topic, 0)
        case Some(i) =>
          // group 1 of `(.+)` is never empty, so `match?.[1]` only tests that there is a match
          var group := CaptureAt(topic, i).value;
          CaptureInTrimmed(topic, i);
          TrimOfTrimmed(group);
          Ok(Str(Trim(group)))
        case None => Ok(Str(topic))
      else
        var invitations := Prop(payload, "invitations");
        if !IsNullish(invitations) && !invitations.Arr? then Err(ErrorObject(FindNotAFunction))
        else
          var found := if invitations.Arr? then Find(invitations.elems, HasDisplayName) else Undefined;
          var invitationName := Prop(found, "display_name");
          if Truthy(invitationName) then Ok(invitationName)
          else Ok(Or([Prop(payload, "owner")], Str("guest")))
  }

  predicate NoLetterP(s: string) {
    forall k :: 0 <= k < |s| ==> LowerAscii(s[k]) != 'p'
  }

  /** No match of the pattern can start at a character that is not `p` or `P`. */
  lemma NoCaptureWithoutP(t: string, j: nat)
    requires j < |t| && LowerAscii(t[j]) != 'p'
    ensures CaptureAt(t, j).None?
  {
    if j + |PatientWord| <= |t| {
      assert Folded(t[j..j + |PatientWord|], true)[0] == LowerAscii(t[j]);
    }
  }

  /** Right after `patient ` the pattern captures the whole trimmed, single-line remainder. */
  lemma CaptureAfterPatient(pre: string, name: string)
    requires name != [] && !IsJsSpace(name[0]) && NoLineTerminator(name)
    ensures CaptureAt(pre + "patient " + name, |pre|) == Some(name)
  {
    var t := pre + "patient " + name;
    var i := |pre|;
    assert t[i..i + 7] == PatientWord;
    assert MatchesAt(t, i, PatientWord, true);
    var rest := t[i + 7..];
    assert rest == " " + name;
    TrimStartPastRun(" ", name);
    assert rest[1..] == name;
  }

  /**
   * A topic `<pre>patient <name>` gives `name` back when `pre` cannot start a
   * match, `name` is trimmed and non-empty and has no line break.
   */
  lemma PatientTopicRoundTrip(pre: string, name: string, payload: JsValue)
    requires NoLetterP(pre) && (pre == [] || !IsJsSpace(pre[0]))
    requires name != [] && IsTrimmed(name) && NoLineTerminator(name)
    requires payload.Obj? && Prop(payload, "topic") == Str(pre + "patient " + name)
    ensures InferDisplayName(payload) == Ok(Str(name))
  {
    var t := pre + "patient " + name;
    TopicOfPatientTopic(pre, name, payload);
    FirstMatchInPatientTopic(pre, name);
    assert Truthy(payload) && IsObject(payload) && TopicText(payload) != [];
  }

  lemma TopicOfPatientTopic(pre: string, name: string, payload: JsValue)
    requires pre == [] || !IsJsSpace(pre[0])
    requires name != [] && IsTrimmed(name)
    requires payload.Obj? && Prop(payload, "topic") == Str(pre + "patient " + name)
    ensures TopicText(payload) == pre + "patient " + name
  {
    var t := pre + "patient " + name;
    assert t[0] == if pre == [] then 'p' else pre[0];
    assert t[|t| - 1] == name[|name| - 1];
    TrimOfTrimmed(t);
  }

  lemma FirstMatchInPatientTopic(pre: string, name: string)
    requires NoLetterP(pre)
    requires name != [] && !IsJsSpace(name[0]) && NoLineTerminator(name)
    ensures var t := pre + "patient " + name;
      FirstMatchIndex(t, 0) == Some(|pre|) && CaptureAt(t, |pre|) == Some(name)
  {
    var t := pre + "patient " + name;
    forall j | 0 <= j < |pre|
      ensures CaptureAt(t, j).None?
    {
      assert t[j] == pre[j];
      NoCaptureWithoutP(t, j);
    }
    CaptureAfterPatient(pre, name);
  }

  /** The server's default topic template gives the name back (see `PatientTopicRoundTrip`). */
  lemma DefaultTopicRoundTrip(name: string, payload: JsValue)
    requires name != [] && IsTrimmed(name) && NoLineTerminator(name)
    requires payload.Obj? && Prop(payload, "topic") == Str("Meeting with patient " + name)
    ensures InferDisplayName(payload) == Ok(Str(name))
  {
    var pre := "Meeting with ";
    assert NoLetterP(pre);
    assert pre + "patient " + name == "Meeting with patient " + name;
    PatientTopicRoundTrip(pre, name, payload);
  }

  // ---------------------------------------------------------------------------
  // injectEnvConfig

  const EnvMarker := "<!--ENV-->"
  const BodyClose := "</body>"
  const ScriptHead := "\n    <script>\n      window.APP_CONFIG = "
  const ScriptTail := ";\n    </script>\n  "

  /** The script block that publishes the runtime configuration; `configJson` is `JSON.stringify(config)`. */
  function ConfigScript(configJson: string): string {
    ScriptHead + configJson + ScriptTail
  }

  /**
   * `injectEnvConfig(html, config)`: the first `<!--ENV-->` is replaced by the
   * script block; without the marker the block goes in front of the first
   * `</body>` (matched in any case). Outside the replaced span the page is kept.
   */
  function InjectEnvConfig(html: string, configJson: string): (r: string)
    ensures IndexOf(html, EnvMarker, false).Some? ==>
      var i := IndexOf(html, EnvMarker, false).value;
      var tail := html[i + |EnvMarker|..];
      |r| >= i + |tail| && r[..i] == html[..i] && r[|r| - |tail|..] == tail
    ensures IndexOf(html, EnvMarker, false).None? && IndexOf(html, BodyClose, true).Some? ==>
      var i := IndexOf(html, BodyClose, true).value;
      var tail := html[i + |BodyClose|..];
      |r| >= i + |tail| && r[..i] == html[..i] && r[|r| - |tail|..] == tail
    ensures IndexOf(html, EnvMarker, false).None? && IndexOf(html, BodyClose, true).None? ==> r == html
  {
    if IndexOf(html, EnvMarker, false).None? then
      ReplaceFirst(html, BodyClose, ConfigScript(configJson) + "\n" + BodyClose, true)
    else
      ReplaceFirst(html, EnvMarker, ConfigScript(configJson) + "\n", false)
  }

  lemma ConfigScriptLiteral(configJson: string)
    requires NoDollar(configJson)
    ensures NoDollar(ConfigScript(configJson) + "\n") && NoDollar(ConfigScript(configJson) + "\n" + BodyClose)
  {
    assert NoDollar(ScriptHead) && NoDollar(ScriptTail + "\n") && NoDollar(BodyClose);
    NoDollarAppend(ScriptHead, configJson);
    NoDollarAppend(ScriptHead + configJson, ScriptTail + "\n");
    assert ConfigScript(configJson) + "\n" == ScriptHead + configJson + (ScriptTail + "\n");
    NoDollarAppend(ConfigScript(configJson) + "\n", BodyClose);
  }

  /**
   * With a marker, exactly its first occurrence becomes the script block and a
   * newline, and the JSON text stands right after `window.APP_CONFIG = `.
   */
  lemma InjectAtMarker(html: string, configJson: string, i: nat)
    requires NoDollar(configJson)
    requires IndexOf(html, EnvMarker, false) == Some(i)
    ensures InjectEnvConfig(html, configJson) == html[..i] + ConfigScript(configJson) + "\n" + html[i + |EnvMarker|..]
    ensures var r := InjectEnvConfig(html, configJson);
      r[i + |ScriptHead|..i + |ScriptHead| + |configJson|] == configJson
  {
    ConfigScriptLiteral(configJson);
    ReplaceFirstLiteral(html, EnvMarker, ConfigScript(configJson) + "\n", false, i);
    JsonInScript(html[..i], configJson, "\n" + html[i + |EnvMarker|..]);
  }

  /**
   * Without a marker, the first `</body>` in any case becomes the script block,
   * a newline and a lower-case `</body>`.
   */
  lemma InjectBeforeBody(html: string, configJson: string, i: nat)
    requires NoDollar(configJson)
    requires IndexOf(html, EnvMarker, false).None?
    requires IndexOf(html, BodyClose, true) == Some(i)
    ensures InjectEnvConfig(html, configJson) == html[..i] + ConfigScript(configJson) + "\n" + BodyClose + html[i + |BodyClose|..]
    ensures var r := InjectEnvConfig(html, configJson);
      r[i + |ScriptHead|..i + |ScriptHead| + |configJson|] == configJson
  {
    ConfigScriptLiteral(configJson);
    ReplaceFirstLiteral(html, BodyClose, ConfigScript(configJson) + "\n" + BodyClose, true, i);
    var tail := html[i + |BodyClose|..];
    assert html[..i] + (ConfigScript(configJson) + "\n" + BodyClose) + tail
      == html[..i] + ConfigScript(configJson) + "\n" + BodyClose + tail;
    JsonInScript(html[..i], configJson, "\n" + BodyClose + html[i + |BodyClose|..]);
  }

  /** Wherever the script block lands, the JSON text stands right after its head. */
  lemma JsonInScript(before: string, configJson: string, after: string)
    ensures before + ConfigScript(configJson) + after == before + ScriptHead + configJson + (ScriptTail + after)
    ensures (before + ScriptHead + configJson + (ScriptTail + after))[|before| + |ScriptHead|..|before| + |ScriptHead| + |configJson|]
      == configJson
  {
    var r := before + ScriptHead + configJson + (ScriptTail + after);
    assert r[|before| + |ScriptHead|..|before| + |ScriptHead| + |configJson|] == configJson;
  }

  // ---------------------------------------------------------------------------
  // getLanguageFromRequest

  /** `path.split('/')[1]` for a request path, which always starts with `/`. */
  function PathSegment(path: string): (r: string)
    requires |path| > 0 && path[0] == '/'
    ensures '/' !in r
    ensures 1 + |r| <= |path| && path[1..1 + |r|] == r
    ensures 1 + |r| == |path| || path[1 + |r|] == '/'
  {
    var rest := path[1..];
    match IndexOf(rest, "/", false)
    case Some(j) =>
      assert rest[j..j + 1] == [rest[j]];
      assert forall k :: 0 <= k < j ==> !MatchesAt(rest, k, "/", false) && rest[k..k + 1] == [rest[k]];
      rest[..j]
    case None =>
      assert forall k :: 0 <= k < |rest| ==> !MatchesAt(rest, k, "/", false) && rest[k..k + 1] == [rest[k]];
      rest
  }

  /**
   * The locale of a page request: the first path segment if a locale of that
   * name is loaded, else the `lang` query value if it names one, else `en`.
   */
  function GetLanguageFromRequest(path: string, queryLang: Option<string>, locales: set<string>): (r: string)
    requires |path| > 0 && path[0] == '/'
    ensures r in locales || r == "en"
    ensures PathSegment(path) in locales ==> r == PathSegment(path)
    ensures PathSegment(path) !in locales && queryLang.Some? && queryLang.value != "" && queryLang.value in locales ==>
      r == queryLang.value
    ensures r != "en" && r != PathSegment(path) ==> queryLang == Some(r) && r != ""
  {
    var pathLang := PathSegment(path);
    if pathLang in locales then pathLang
    else if queryLang.Some? && queryLang.value != "" && queryLang.value in locales then queryLang.value
    else "en"
  }

  // ---------------------------------------------------------------------------
  // assertEnvConfig and getFrontendConfig

  const RequiredEnv := ["SERVER", "CLIENT_ID", "CLIENT_SECRET", "CONF_OWNER_TRUECONF_ID"]

  /** `process.env[key]` is truthy. */
  predicate IsSet(env: map<string, string>, key: string) {
    key in env && env[key] != ""
  }

  /** `sub` is `s` with some elements left out, the rest in order. */
  predicate IsSubsequence(sub: seq<string>, s: seq<string>) {
    if sub == [] then true
    else if s == [] then false
    else if sub[0] == s[0] then IsSubsequence(sub[1..], s[1..])
    else IsSubsequence(sub, s[1..])
  }

  /** `keys.filter((key) => !process.env[key])`. */
  function MissingFrom(keys: seq<string>, env: map<string, string>): (r: seq<string>)
    ensures forall k :: k in r <==> k in keys && !IsSet(env, k)
    ensures IsSubsequence(r, keys)
  {
    if keys == [] then []
    else if !IsSet(env, keys[0]) then [keys[0]] + MissingFrom(keys[1..], env)
    else MissingFrom(keys[1..], env)
  }

  const MissingEnvPrefix := "Missing environment variables: "

  /** `assertEnvConfig()`: `Some(message)` is the error it throws. */
  function AssertEnvConfig(env: map<string, string>): (r: Option<string>)
    ensures r.None? <==> forall k :: k in RequiredEnv ==> IsSet(env, k)
    ensures r.Some? ==> r.value == MissingEnvPrefix + Join(MissingFrom(RequiredEnv, env), ", ")
  {
    var missing := MissingFrom(RequiredEnv, env);
    assert |missing| > 0 ==> missing[0] in missing;
    if |missing| > 0 then Some(MissingEnvPrefix + Join(missing, ", ")) else None
  }

  /** Startup with every variable but `CLIENT_SECRET` names exactly that one. */
  lemma MissingClientSecret(env: map<string, string>)
    requires IsSet(env, "SERVER") && IsSet(env, "CLIENT_ID") && IsSet(env, "CONF_OWNER_TRUECONF_ID")
    requires !IsSet(env, "CLIENT_SECRET")
    ensures AssertEnvConfig(env) == Some("Missing environment variables: CLIENT_SECRET")
  {
    assert MissingFrom(RequiredEnv[3..], env) == [];
    assert MissingFrom(RequiredEnv[2..], env) == ["CLIENT_SECRET"];
    assert MissingFrom(RequiredEnv[1..], env) == ["CLIENT_SECRET"];
    assert MissingFrom(RequiredEnv, env) == ["CLIENT_SECRET"];
    assert Join(["CLIENT_SECRET"], ", ") == "CLIENT_SECRET";
    assert RequiredEnv[2] == "CLIENT_SECRET";
    var r := AssertEnvConfig(env);
    assert r.Some?;
    assert r.value == MissingEnvPrefix + "CLIENT_SECRET";
    assert MissingEnvPrefix + "CLIENT_SECRET" == "Missing environment variables: CLIENT_SECRET";
  }

  const DefaultTopicTemplate := "Meeting with patient {{name}}"

  /** The runtime configuration published to the browser. */
  datatype FrontendConfig = FrontendConfig(
    serverConfigured: bool,
    ownerId: Option<string>,
    topicTemplate: string,
    currentLanguage: string)

  /** `getFrontendConfig(currentLang)`. */
  function GetFrontendConfig(env: map<string, string>, currentLang: string): (c: FrontendConfig)
    ensures c.serverConfigured <==> IsSet(env, "SERVER") && IsSet(env, "CLIENT_ID") && IsSet(env, "CLIENT_SECRET")
    ensures c.topicTemplate != ""
    ensures !IsSet(env, "CONF_TOPIC_TEMPLATE") ==> c.topicTemplate == DefaultTopicTemplate
    ensures IsSet(env, "CONF_TOPIC_TEMPLATE") ==> c.topicTemplate == env["CONF_TOPIC_TEMPLATE"]
    ensures c.ownerId == (if "CONF_OWNER_TRUECONF_ID" in env then Some(env["CONF_OWNER_TRUECONF_ID"]) else None)
    ensures c.currentLanguage == currentLang
  {
    FrontendConfig(
      IsSet(env, "SERVER") && IsSet(env, "CLIENT_ID") && IsSet(env, "CLIENT_SECRET"),
      if "CONF_OWNER_TRUECONF_ID" in env then Some(env["CONF_OWNER_TRUECONF_ID"]) else None,
      if IsSet(env, "CONF_TOPIC_TEMPLATE") then env["CONF_TOPIC_TEMPLATE"] else DefaultTopicTemplate,
      currentLang)
  }
}

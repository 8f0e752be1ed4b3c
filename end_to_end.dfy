/**
 * The name typed in the browser, followed through the published configuration,
 * the payload builder and the server's display-name inference.
 */
module EndToEnd {
  import opened Wrappers
  import opened JsValues
  import opened Text
  import Server
  import opened ConferencePayload

  /**
   * The configuration reaches the page unchanged only when its JSON text is
   * copied literally and stays inside its script element. `injectEnvConfig`
   * passes the JSON as the replacement string of `replace`, which expands
   * `$`-patterns (`InjectAtMarker` and `InjectBeforeBody` need the JSON text
   * `$`-free). `JSON.stringify` does not escape `<`, so a published `</script>`
   * would end the element early and the cut-off script would never assign
   * `window.APP_CONFIG`; published text without `<` rules that out.
   */
  predicate PublishedLiterally(c: Server.FrontendConfig) {
    && (c.ownerId.Some? ==> NoDollar(c.ownerId.value) && NoTagOpen(c.ownerId.value))
    && NoDollar(c.topicTemplate) && NoTagOpen(c.topicTemplate)
    && NoDollar(c.currentLanguage) && NoTagOpen(c.currentLanguage)
  }

  /** No `<`, so nothing in the text can open or close a tag inside the script element. */
  predicate NoTagOpen(s: string) {
    forall k :: 0 <= k < |s| ==> s[k] != '<'
  }

  /** `window.APP_CONFIG` as the page reads it back from a literally published configuration. */
  function PublishedConfig(c: Server.FrontendConfig): (a: AppConfig)
    requires PublishedLiterally(c)
    ensures a.ownerId == c.ownerId && a.topicTemplate == Some(c.topicTemplate)
  {
    AppConfig(c.ownerId, Some(c.topicTemplate))
  }

  /** The conference object the server receives for a patient name. */
  function SentPayload(patientName: string, config: Option<AppConfig>): JsValue {
    AsJsValue(BuildConferencePayload(patientName, config))
  }

  /** A template `<pre>{{name}}` gives the topic `<pre><name>`. */
  lemma TopicFromTemplate(pre: string, patientName: string, config: Option<AppConfig>)
    requires TopicTemplate(config) == pre + NamePlaceholder
    requires forall k :: 0 <= k < |pre| ==> pre[k] != '{'
    requires NoDollar(SafeName(patientName))
    ensures BuildConferencePayload(patientName, config).topic == pre + SafeName(patientName)
    ensures Prop(SentPayload(patientName, config), "topic") == Str(pre + SafeName(patientName))
  {
    assert pre + NamePlaceholder + [] == pre + NamePlaceholder;
    FirstOccurrenceAfter(pre, NamePlaceholder, []);
    TopicNamesPatient(patientName, config, |pre|);
    assert (pre + NamePlaceholder)[..|pre|] == pre;
    assert (pre + NamePlaceholder)[|pre| + |NamePlaceholder|..] == [];
  }

  /**
   * With the server's default topic template, the server infers exactly the
   * (trimmed, defaulted) name typed in the browser, as long as the name has
   * no `$` and no line break, and the published configuration holds no `$`
   * and no `<`.
   */
  lemma DefaultTemplateNameRoundTrip(env: map<string, string>, lang: string, patientName: string)
    requires !Server.IsSet(env, "CONF_TOPIC_TEMPLATE")
    requires PublishedLiterally(Server.GetFrontendConfig(env, lang))
    requires NoDollar(SafeName(patientName)) && NoLineTerminator(SafeName(patientName))
    ensures var config := Some(PublishedConfig(Server.GetFrontendConfig(env, lang)));
      Server.InferDisplayName(SentPayload(patientName, config)) == Ok(Str(SafeName(patientName)))
  {
    var config := Some(PublishedConfig(Server.GetFrontendConfig(env, lang)));
    var name := SafeName(patientName);
    var payload := SentPayload(patientName, config);
    DefaultTemplatePublished(env, lang);
    TopicFromTemplate(DefaultTopicPrefix, patientName, config);
    assert payload.Obj? && Prop(payload, "topic") == Str(DefaultTopicPrefix + name);
    Server.DefaultTopicRoundTrip(name, payload);
  }

  const DefaultTopicPrefix := "Meeting with patient "

  /** Without `CONF_TOPIC_TEMPLATE` the page uses the server's default template. */
  lemma DefaultTemplatePublished(env: map<string, string>, lang: string)
    requires !Server.IsSet(env, "CONF_TOPIC_TEMPLATE")
    requires PublishedLiterally(Server.GetFrontendConfig(env, lang))
    ensures TopicTemplate(Some(PublishedConfig(Server.GetFrontendConfig(env, lang)))) == DefaultTopicPrefix + NamePlaceholder
    ensures forall k :: 0 <= k < |DefaultTopicPrefix| ==> DefaultTopicPrefix[k] != '{'
  {
    assert Server.DefaultTopicTemplate == DefaultTopicPrefix + NamePlaceholder;
  }

  /**
   * Without a published template the page falls back to its Russian template,
   * which the English pattern never matches: for a name without the letter
   * `p`, the server takes the whole topic as the display name.
   */
  lemma BuiltInTemplateKeepsWholeTopic(patientName: string)
    requires NoDollar(SafeName(patientName)) && Server.NoLetterP(SafeName(patientName))
    ensures Server.InferDisplayName(SentPayload(patientName, None)) == Ok(Str(BuiltInTopicPrefix + SafeName(patientName)))
  {
    BuiltInPrefixFacts();
    TopicFromTemplate(BuiltInTopicPrefix, patientName, None);
    WholeTopicInferred(BuiltInTopicPrefix, SafeName(patientName), SentPayload(patientName, None));
  }

  lemma BuiltInPrefixFacts()
    ensures TopicTemplate(None) == BuiltInTopicPrefix + NamePlaceholder
    ensures forall k :: 0 <= k < |BuiltInTopicPrefix| ==> BuiltInTopicPrefix[k] != '{'
    ensures Server.NoLetterP(BuiltInTopicPrefix)
    ensures BuiltInTopicPrefix != [] && !IsJsSpace(BuiltInTopicPrefix[0])
  {
  }

  /** A topic without the letter `p` is taken whole as the display name. */
  lemma WholeTopicInferred(pre: string, name: string, payload: JsValue)
    requires Server.NoLetterP(pre) && Server.NoLetterP(name)
    requires pre != [] && !IsJsSpace(pre[0]) && name != [] && IsTrimmed(name)
    requires payload.Obj? && Prop(payload, "topic") == Str(pre + name)
    ensures Server.InferDisplayName(payload) == Ok(Str(pre + name))
  {
    var topic := pre + name;
    NoMatchInTopic(pre, name);
    assert topic[0] == pre[0] && topic[|topic| - 1] == name[|name| - 1];
    TrimOfTrimmed(topic);
    assert Server.TopicText(payload) == topic;
  }

  /** A text without the letter `p` holds no match of the pattern. */
  lemma NoMatchInTopic(pre: string, name: string)
    requires Server.NoLetterP(pre) && Server.NoLetterP(name)
    ensures Server.FirstMatchIndex(pre + name, 0).None?
  {
    var topic := pre + name;
    forall j | 0 <= j <= |topic|
      ensures Server.CaptureAt(topic, j).None?
    {
      if j < |topic| {
        assert topic[j] == if j < |pre| then pre[j] else name[j - |pre|];
        Server.NoCaptureWithoutP(topic, j);
      }
    }
  }
}

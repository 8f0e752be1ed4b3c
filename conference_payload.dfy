/**
 * The conference description the browser sends to the server
 * (public/js/conferencePayload.js): owner from the published configuration,
 * topic from the topic template and the patient name, fixed settings and two
 * copies of the participant rights record.
 */
module ConferencePayload {
  import opened Wrappers
  import opened JsValues
  import opened Text

  /** The 14 rights of `RIGHTS_TEMPLATE`, in declaration order. */
  const RightsFlags := [
    "chat_send", "chat_rcv", "slide_show_send", "slide_show_rcv",
    "white_board_send", "white_board_rcv", "file_transfer_send", "file_transfer_rcv",
    "desktop_sharing", "recording", "audio_send", "audio_rcv", "video_send", "video_rcv"]

  /** The frozen template: every right granted. */
  function RightsTemplate(): (r: map<string, bool>)
    ensures r.Keys == set flag | flag in RightsFlags
    ensures forall flag :: flag in r ==> r[flag]
  {
    map flag | flag in RightsFlags :: true
  }

  /** The `rights` member: one record for guests, one for users. */
  datatype Rights = Rights(guest: map<string, bool>, user: map<string, bool>)

  /** `cloneRights()`: a copy of the template for each role. */
  function CloneRights(): (r: Rights)
    ensures r.guest == RightsTemplate() && r.user == RightsTemplate()
  {
    Rights(RightsTemplate(), RightsTemplate())
  }

  /**
   * The part of `window.APP_CONFIG` read here; a missing member is `None`.
   * The configuration itself may be missing too.
   */
  datatype AppConfig = AppConfig(ownerId: Option<string>, topicTemplate: Option<string>)

  /** The owner id shipped in the sample environment file, which is refused. */
  const PlaceholderOwnerId := "your_trueconf_username"

  /** `getTrueConfId()`: the configured owner id, or `undefined` for the placeholder. */
  function GetTrueConfId(config: Option<AppConfig>): (r: Option<string>)
    ensures r.None? <==> config.None? || config.value.ownerId.None? || config.value.ownerId == Some(PlaceholderOwnerId)
    ensures r.Some? ==> config.Some? && config.value.ownerId == r && r.value != PlaceholderOwnerId
  {
    if config.None? then None
    else if config.value.ownerId == Some(PlaceholderOwnerId) then None
    else config.value.ownerId
  }

  /** The Russian fallback template, `Встреча с пациентом {{name}}`. */
  const BuiltInTopicPrefix := "Встреча с пациентом "
  const BuiltInTopicTemplate := BuiltInTopicPrefix + NamePlaceholder
  const NamePlaceholder := "{{name}}"
  const DefaultName := "guest"

  lemma DefaultNameTrimmed()
    ensures DefaultName != [] && IsTrimmed(DefaultName)
  {
    assert DefaultName[0] == 'g' && DefaultName[|DefaultName| - 1] == 't';
  }

  /** `(patientName || '').trim() || 'guest'`. */
  function SafeName(patientName: string): (r: string)
    ensures r != [] && IsTrimmed(r)
    ensures Trim(patientName) != [] ==> r == Trim(patientName)
    ensures Trim(patientName) == [] ==> r == DefaultName
  {
    var trimmed := Trim(patientName);
    if trimmed == [] then
      DefaultNameTrimmed();
      DefaultName
    else trimmed
  }

  /** `APP_CONFIG?.CONF_TOPIC_TEMPLATE || 'Встреча с пациентом {{name}}'`. */
  function TopicTemplate(config: Option<AppConfig>): (r: string)
    ensures r != []
    ensures config.Some? && config.value.topicTemplate.Some? && config.value.topicTemplate.value != [] ==>
      r == config.value.topicTemplate.value
    ensures r != BuiltInTopicTemplate ==> config.Some? && config.value.topicTemplate == Some(r)
  {
    if config.Some? && config.value.topicTemplate.Some? && config.value.topicTemplate.value != [] then
      config.value.topicTemplate.value
    else BuiltInTopicTemplate
  }

  datatype Invitation = Invitation(id: Option<string>)

  /** The body of `POST /api/v3.11/conferences` as the browser builds it. */
  datatype Payload = Payload(
    kind: int,
    topic: string,
    owner: Option<string>,
    description: string,
    maxPodiums: int,
    maxParticipants: int,
    scheduleType: int,
    invitations: seq<Invitation>,
    allowGuests: bool,
    autoInvite: int,
    state: string,
    recording: int,
    streamRecordingState: int,
    rights: Rights,
    allowOnlyPlannedParticipants: bool)

  /**
   * `buildConferencePayload(patientName)`: a running two-person conference
   * owned by the configured user, who is also its only invitee, with every
   * right granted to guests and users alike.
   */
  function BuildConferencePayload(patientName: string, config: Option<AppConfig>): (p: Payload)
    ensures p.owner == GetTrueConfId(config)
    ensures p.invitations == [Invitation(p.owner)]
    ensures p.topic == ReplaceFirst(TopicTemplate(config), NamePlaceholder, SafeName(patientName), false)
    ensures p.kind == 0 && p.description == "" && p.maxPodiums == 2 && p.maxParticipants == 2
    ensures p.scheduleType == -1 && p.allowGuests && p.autoInvite == 1 && p.state == "running"
    ensures p.recording == 0 && p.streamRecordingState == 0 && !p.allowOnlyPlannedParticipants
    ensures p.rights == CloneRights()
  {
    var ownerId := GetTrueConfId(config);
    var topic := ReplaceFirst(TopicTemplate(config), NamePlaceholder, SafeName(patientName), false);
    Payload(0, topic, ownerId, "", 2, 2, -1, [Invitation(ownerId)], true, 1, "running", 0, 0, CloneRights(), false)
  }

  /**
   * With a name free of `$`, the topic is the template with its first
   * `{{name}}` swapped for the name and everything else kept.
   */
  lemma TopicNamesPatient(patientName: string, config: Option<AppConfig>, i: nat)
    requires NoDollar(SafeName(patientName))
    requires IndexOf(TopicTemplate(config), NamePlaceholder, false) == Some(i)
    ensures var template := TopicTemplate(config);
      BuildConferencePayload(patientName, config).topic
        == template[..i] + SafeName(patientName) + template[i + |NamePlaceholder|..]
  {
    ReplaceFirstLiteral(TopicTemplate(config), NamePlaceholder, SafeName(patientName), false, i);
  }

  /** A template without `{{name}}` is the topic as it stands, whatever the name. */
  lemma TopicWithoutPlaceholder(patientName: string, config: Option<AppConfig>)
    requires IndexOf(TopicTemplate(config), NamePlaceholder, false).None?
    ensures BuildConferencePayload(patientName, config).topic == TopicTemplate(config)
  {
  }

  /**
   * The replacement text is expanded: a patient called `$&` is replaced by the
   * matched `{{name}}`, so the topic is the bare template.
   */
  lemma DollarPatternInName(config: Option<AppConfig>, i: nat)
    requires IndexOf(TopicTemplate(config), NamePlaceholder, false) == Some(i)
    ensures BuildConferencePayload("$&", config).topic == TopicTemplate(config)
  {
    var name := "$&";
    assert !IsJsSpace(name[0]) && !IsJsSpace(name[|name| - 1]);
    TrimOfTrimmed(name);
    ReplaceFirstWithMatch(TopicTemplate(config), NamePlaceholder, false, i);
  }

  function RightsValue(flags: map<string, bool>): JsValue {
    Obj(map flag | flag in flags :: Bool(flags[flag]))
  }

  function OptionalMember(members: map<string, JsValue>, key: string, value: Option<string>): map<string, JsValue> {
    if value.Some? then members[key := Str(value.value)] else members
  }

  /**
   * The payload as the server receives it after `JSON.stringify`: an owner id
   * that is `undefined` is dropped, both at the top level and in the invitation.
   */
  function AsJsValue(p: Payload): (v: JsValue)
    ensures v.Obj?
    ensures Prop(v, "topic") == Str(p.topic)
    ensures Prop(v, "owner") == (if p.owner.Some? then Str(p.owner.value) else Undefined)
    ensures Prop(v, "invitations").Arr? && |Prop(v, "invitations").elems| == |p.invitations|
    ensures forall k :: 0 <= k < |p.invitations| ==>
      Prop(Prop(v, "invitations").elems[k], "id") == (if p.invitations[k].id.Some? then Str(p.invitations[k].id.value) else Undefined)
  {
    var invitations := seq(|p.invitations|, k requires 0 <= k < |p.invitations| =>
      Obj(OptionalMember(map[], "id", p.invitations[k].id)));
    var settings := map[
      "type" := Num(p.kind), "description" := Str(p.description),
      "max_podiums" := Num(p.maxPodiums), "max_participants" := Num(p.maxParticipants),
      "schedule" := Obj(map["type" := Num(p.scheduleType)]),
      "allow_guests" := Bool(p.allowGuests), "auto_invite" := Num(p.autoInvite), "state" := Str(p.state),
      "recording" := Num(p.recording), "stream_recording_state" := Num(p.streamRecordingState),
      "rights" := Obj(map["guest" := RightsValue(p.rights.guest), "user" := RightsValue(p.rights.user)]),
      "allow_only_planned_participants" := Bool(p.allowOnlyPlannedParticipants)];
    var members := settings["invitations" := Arr(invitations)]["topic" := Str(p.topic)];
    Obj(OptionalMember(members, "owner", p.owner))
  }
}

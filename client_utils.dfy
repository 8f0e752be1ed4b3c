/**
 * The browser helpers of public/js/utils.js: the text shown for an error,
 * the choice of the TrueConf Web client among those the server returns, and
 * the iframe element built from that client's markup with its inline event
 * handlers removed.
 *
 * `JSON.stringify` and the HTML parser are not modelled: they are the
 * parameters `stringify` (the JSON text of a defined value) and `parse` (the
 * attributes of the first `iframe` in some markup, if there is one).
 */
module ClientUtils {
  import opened Wrappers
  import opened JsValues

  // ---------------------------------------------------------------------------
  // formatErrorMessage

  const UnknownError := "Unknown error"
  const NoResponseMessage := "Server did not respond. Please check server and network connection."
  const GenericError := "An error occurred"

  /** `response.status ?? '??'` in a template literal: only null and undefined become `??`. */
  function StatusText(status: JsValue): (r: string)
    ensures IsNullish(status) ==> r == "??"
    ensures !IsNullish(status) ==> r == JsToString(status)
    ensures status.Num? ==> |r| >= 1 && (r[0] == '-' || '0' <= r[0] <= '9')
  {
    if IsNullish(status) then "??" else JsToString(status)
  }

  /**
   * The details of an upstream error: `error_description`, else `message`,
   * else the JSON text of the data, which is `undefined` for absent data.
   */
  function Details(data: JsValue, stringify: JsValue -> string): (r: JsValue)
    ensures Truthy(Prop(data, "error_description")) ==> r == Prop(data, "error_description")
    ensures !Truthy(Prop(data, "error_description")) && Truthy(Prop(data, "message")) ==> r == Prop(data, "message")
    ensures !Truthy(Prop(data, "error_description")) && !Truthy(Prop(data, "message")) ==>
      r == (if data.Undefined? then Undefined else Str(stringify(data)))
  {
    var candidates := [Prop(data, "error_description"), Prop(data, "message")];
    assert candidates[0] == Prop(data, "error_description") && candidates[1] == Prop(data, "message");
    Or(candidates, if data.Undefined? then Undefined else Str(stringify(data)))
  }

  /**
   * `formatErrorMessage(error)`: the text shown for a failed request. The cases
   * are tried in order (no error, a string, an upstream answer, no answer, any
   * other error) and the result is never empty.
   */
  function FormatErrorMessage(error: JsValue, stringify: JsValue -> string): (r: JsValue)
    ensures Truthy(r)
    ensures !Truthy(error) ==> r == Str(UnknownError)
    ensures Truthy(error) && error.Str? ==> r == error
    ensures Truthy(error) && !error.Str? && Truthy(Prop(error, "response")) ==>
      var response := Prop(error, "response");
      r == Str("API " + StatusText(Prop(response, "status")) + ": " + JsToString(Details(Prop(response, "data"), stringify)))
    ensures Truthy(error) && !error.Str? && !Truthy(Prop(error, "response")) && Truthy(Prop(error, "request")) ==>
      r == Str(NoResponseMessage)
    ensures Truthy(error) && !error.Str? && !Truthy(Prop(error, "response")) && !Truthy(Prop(error, "request")) ==>
      (Truthy(Prop(error, "message")) ==> r == Prop(error, "message")) && (!Truthy(Prop(error, "message")) ==> r == Str(GenericError))
  {
    if !Truthy(error) then Str(UnknownError)
    else if error.Str? then error
    else
      var response := Prop(error, "response");
      if Truthy(response) then
        var status := StatusText(Prop(response, "status"));
        var details := Details(Prop(response, "data"), stringify);
        Str("API " + status + ": " + JsToString(details))
      else if Truthy(Prop(error, "request")) then Str(NoResponseMessage)
      else Or([Prop(error, "message")], Str(GenericError))
  }

  /** An upstream status of 0 is shown as `0`, not replaced by `??`. */
  lemma FormatZeroStatus(error: JsValue, description: string, stringify: JsValue -> string)
    requires error.Obj? && description != []
    requires Truthy(Prop(error, "response"))
    requires Prop(Prop(error, "response"), "status") == Num(0)
    requires Prop(Prop(Prop(error, "response"), "data"), "error_description") == Str(description)
    ensures FormatErrorMessage(error, stringify) == Str("API 0: " + description)
  {
    var response := Prop(error, "response");
    assert Digits(0) == "0";
    assert StatusText(Prop(response, "status")) == "0";
    assert Details(Prop(response, "data"), stringify) == Str(description);
  }

  /** An upstream answer without a status or data reads `API ??: undefined`. */
  lemma FormatBareResponse(error: JsValue, stringify: JsValue -> string)
    requires error.Obj? && Prop(error, "response") == Obj(map[])
    ensures FormatErrorMessage(error, stringify) == Str("API ??: undefined")
  {
    assert Prop(Obj(map[]), "status") == Undefined && Prop(Obj(map[]), "data") == Undefined;
  }

  // ---------------------------------------------------------------------------
  // The iframe element and its sanitising

  /** The element returned by `querySelector('iframe')`; only its attributes are modelled. */
  class IframeElement {
    var attributes: map<string, string>

    constructor(attributes: map<string, string>)
      ensures this.attributes == attributes
    {
      this.attributes := attributes;
    }

    /** `removeAttribute(name)`: removing an absent attribute does nothing. */
    method RemoveAttribute(name: string)
      modifies this
      ensures attributes == old(attributes) - {name}
    {
      attributes := attributes - {name};
    }
  }

  /** The inline event handlers stripped from the server's markup. */
  const RemovedAttributes := ["onload", "onerror"]

  /** The attributes of an element once its `onload` and `onerror` are removed. */
  function Sanitized(attributes: map<string, string>): (r: map<string, string>)
    ensures "onload" !in r && "onerror" !in r
    ensures forall name :: name in r ==> name in attributes && r[name] == attributes[name]
    ensures forall name :: name in attributes && name != "onload" && name != "onerror" ==> name in r
  {
    attributes - {"onload", "onerror"}
  }

  const NoIframeMarkup := "Response does not contain an iframe"
  const NoIframeElement := "Failed to extract iframe from the server response"

  /**
   * `extractIframeElement(html)`: empty markup and markup without an iframe
   * are errors; otherwise the first iframe, without `onload` and `onerror`.
   */
  method ExtractIframeElement(html: JsValue, parse: string -> Option<map<string, string>>)
    returns (r: Result<IframeElement, string>)
    ensures !Truthy(html) ==> r == Err(NoIframeMarkup)
    ensures Truthy(html) && parse(JsToString(html)).None? ==> r == Err(NoIframeElement)
    ensures Truthy(html) && parse(JsToString(html)).Some? ==>
      r.Ok? && fresh(r.value) && r.value.attributes == Sanitized(parse(JsToString(html)).value)
  {
    if !Truthy(html) {
      return Err(NoIframeMarkup);
    }
    var found := parse(JsToString(html));
    if found.None? {
      return Err(NoIframeElement);
    }
    var element := new IframeElement(found.value);
    RemoveHandlers(element);
    return Ok(element);
  }

  /** `['onload', 'onerror'].forEach((attr) => element.removeAttribute(attr))`. */
  method RemoveHandlers(element: IframeElement)
    modifies element
    ensures element.attributes == Sanitized(old(element.attributes))
  {
    for i := 0 to |RemovedAttributes|
      invariant element.attributes == old(element.attributes) - (set name | name in RemovedAttributes[..i])
    {
      element.RemoveAttribute(RemovedAttributes[i]);
      assert RemovedAttributes[..i + 1] == RemovedAttributes[..i] + [RemovedAttributes[i]];
    }
    assert RemovedAttributes[..|RemovedAttributes|] == ["onload", "onerror"];
  }

  // ---------------------------------------------------------------------------
  // buildIframeFromClients

  const NoClients := "Server did not return TrueConf clients"
  const NoWebIframe := "TrueConf Web did not return an iframe"

  /** `client?.type === 'web' && client?.platform === 'webrtc'`. */
  predicate IsWebRtcClient(client: JsValue) {
    Prop(client, "type") == Str("web") && Prop(client, "platform") == Str("webrtc")
  }

  /**
   * The iframe markup `buildIframeFromClients` goes on with: the `iframe` of the
   * first WebRTC web client, which must be truthy; a later matching client is
   * never considered.
   */
  function WebClientIframe(clients: JsValue): (r: Result<JsValue, string>)
    ensures !clients.Arr? || |clients.elems| == 0 ==> r == Err(NoClients)
    ensures r.Ok? ==> Truthy(r.value)
    ensures clients.Arr? && |clients.elems| > 0 ==>
      match FindIndex(clients.elems, IsWebRtcClient, 0)
      case None => r == Err(NoWebIframe)
      case Some(i) => r == (if Truthy(Prop(clients.elems[i], "iframe")) then Ok(Prop(clients.elems[i], "iframe")) else Err(NoWebIframe))
  {
    if !clients.Arr? || |clients.elems| == 0 then Err(NoClients)
    else
      var webClient := Find(clients.elems, IsWebRtcClient);
      var iframe := Prop(webClient, "iframe");
      if !Truthy(iframe) then Err(NoWebIframe) else Ok(iframe)
  }

  /** The first matching client's answer, whatever the clients before it (none matching) and after it are. */
  lemma FirstWebClientDecides(before: seq<JsValue>, client: JsValue, after: seq<JsValue>)
    requires forall k :: 0 <= k < |before| ==> !IsWebRtcClient(before[k])
    requires IsWebRtcClient(client)
    ensures WebClientIframe(Arr(before + [client] + after)) == WebClientIframe(Arr([client]))
    ensures WebClientIframe(Arr(before + [client] + after)).Ok? <==> Truthy(Prop(client, "iframe"))
  {
    var elems := before + [client] + after;
    assert elems[|before|] == client;
    assert forall k :: 0 <= k < |before| ==> elems[k] == before[k];
    assert IsWebRtcClient(elems[|before|]);
    assert FindIndex(elems, IsWebRtcClient, 0) == Some(|before|);
    assert FindIndex([client], IsWebRtcClient, 0) == Some(0);
  }

  /** A list without a WebRTC web client is answered with the missing-iframe error. */
  lemma NoWebClientNoIframe(elems: seq<JsValue>)
    requires |elems| > 0
    requires forall k :: 0 <= k < |elems| ==> !IsWebRtcClient(elems[k])
    ensures WebClientIframe(Arr(elems)) == Err(NoWebIframe)
  {
    assert FindIndex(elems, IsWebRtcClient, 0).None?;
  }

  /**
   * `buildIframeFromClients(clients)`: the sanitised iframe of the first WebRTC
   * web client, or the first error met on the way.
   */
  method BuildIframeFromClients(clients: JsValue, parse: string -> Option<map<string, string>>)
    returns (r: Result<IframeElement, string>)
    ensures WebClientIframe(clients).Err? ==> r == Err(WebClientIframe(clients).error)
    ensures WebClientIframe(clients).Ok? && parse(JsToString(WebClientIframe(clients).value)).None? ==>
      r == Err(NoIframeElement)
    ensures WebClientIframe(clients).Ok? && parse(JsToString(WebClientIframe(clients).value)).Some? ==>
      r.Ok? && fresh(r.value) && r.value.attributes == Sanitized(parse(JsToString(WebClientIframe(clients).value)).value)
  {
    match WebClientIframe(clients)
    case Err(message) =>
      return Err(message);
    case Ok(iframe) =>
      r := ExtractIframeElement(iframe, parse);
  }
}

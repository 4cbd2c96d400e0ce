/**
 * The client of the Jamf Pro server: the session (credentials and bearer
 * token), the requests it sends, and what it does with each answer. The
 * network is not part of the model: every operation takes the outcome of its
 * data task as a parameter and returns the request it would have sent, so
 * the decisions the completion handlers make, and the state they leave, can
 * be stated exactly. Whether `URL(string:)` accepts a string is the parameter
 * `validUrl`.
 */
module JamfClient {
  import opened JamfTypes
  import opened Text
  import opened NameSort
  import opened Encoding
  import opened XmlParser

  /** A request as it leaves the client: method, URL and header fields. */
  datatype Request = Request(httpMethod: string, url: string, headers: map<string, string>)

  /**
   * What a data task hands its completion handler: a transport error, or a
   * response with the HTTP status when the response is an HTTP one (None
   * otherwise) and the body when there is one, already turned into `D` by
   * the library decoder the operation uses.
   */
  datatype Outcome<D> =
    | TransportError(description: string)
    | Response(status: Option<int>, body: Option<D>)

  /** A JSON value as `JSONSerialization` produces it; numbers keep their literal text. */
  datatype JsonValue =
    | JsonNull
    | JsonBool(b: bool)
    | JsonNumber(literal: string)
    | JsonString(s: string)
    | JsonArray(items: seq<JsonValue>)
    | JsonObject(members: map<string, JsonValue>)

  /** What `JSONSerialization.jsonObject(with:)` makes of a body: it throws, or yields a value. */
  datatype JsonParse = Malformed | Parsed(value: JsonValue)

  /** The two arguments `sendCommandDevice` passes to its completion. */
  datatype CommandResult = CommandResult(success: bool, message: string)

  // ---------------------------------------------------------------------------
  // URLs

  function TokenUrl(jamfURL: string): string { jamfURL + "/api/v1/auth/token" }

  function ComputersUrl(jamfURL: string): string { jamfURL + "/JSSResource/computers/subset/basic" }

  function MobileDevicesUrl(jamfURL: string): string { jamfURL + "/JSSResource/mobiledevices" }

  function MobileDeviceUrl(jamfURL: string, deviceId: string): string
  {
    jamfURL + "/JSSResource/mobiledevices/id/" + deviceId
  }

  function CommandUrl(jamfURL: string, command: string, deviceId: string): string
  {
    jamfURL + "/JSSResource/mobiledevicecommands/command/" + command + "/id/" + deviceId
  }

  // ---------------------------------------------------------------------------
  // Authorization headers

  /** The Basic credentials of section 2 of RFC 7617: base 64 of the UTF-8 bytes of `user-id ":" password`. */
  function BasicAuthorization(username: string, password: string): string
  {
    "Basic " + Base64Encode(Utf8Encode(username + ":" + password))
  }

  /** The bearer credentials of section 2.1 of RFC 6750. */
  function BearerAuthorization(token: string): string
  {
    "Bearer " + token
  }

  /** What a server reads from a Basic header: the `user-id:password` string, or None. */
  function BasicCredentials(header: string): Option<string>
  {
    if |header| >= 6 && header[..6] == "Basic " then
      match Base64Decode(header[6..])
      case None => None
      case Some(bytes) => Utf8Decode(bytes)
    else None
  }

  /** The user-id of a `user-id:password` string: everything before the first colon. */
  function UserId(credentials: string): string
    decreases |credentials|
  {
    if credentials == [] || credentials[0] == ':' then [] else [credentials[0]] + UserId(credentials[1..])
  }

  /** What a server reads from a bearer header: the token, or None. */
  function BearerToken(header: string): Option<string>
  {
    if |header| >= 7 && header[..7] == "Bearer " then Some(header[7..]) else None
  }

  /** The login header carries exactly `username:password`: the server decodes it back. */
  lemma BasicHeaderCarriesCredentials(username: string, password: string)
    ensures BasicCredentials(BasicAuthorization(username, password)) == Some(username + ":" + password)
  {
    var bytes := Utf8Encode(username + ":" + password);
    var header := BasicAuthorization(username, password);
    assert header[..6] == "Basic " && header[6..] == Base64Encode(bytes);
    Base64RoundTrip(bytes);
    Utf8RoundTrip(username + ":" + password);
  }

  /** A user name without a colon, as RFC 7617 requires, is recovered from the credentials. */
  lemma {:induction false} UserIdBeforeFirstColon(username: string, password: string)
    requires forall k | 0 <= k < |username| :: username[k] != ':'
    ensures UserId(username + ":" + password) == username
    decreases |username|
  {
    if username != [] {
      assert (username + ":" + password)[1..] == username[1..] + ":" + password;
      UserIdBeforeFirstColon(username[1..], password);
      assert [username[0]] + username[1..] == username;
    }
  }

  /** The bearer header carries exactly the token. */
  lemma BearerHeaderCarriesToken(token: string)
    ensures BearerToken(BearerAuthorization(token)) == Some(token)
  {
    assert BearerAuthorization(token)[..7] == "Bearer ";
  }

  // ---------------------------------------------------------------------------
  // Requests

  /** The login request: POST, JSON accepted, Basic credentials. */
  function LoginRequest(url: string, username: string, password: string): Request
  {
    Request("POST", url, map["Accept" := "application/json", "Authorization" := BasicAuthorization(username, password)])
  }

  /** A request authorized by the bearer token and nothing else. */
  function BearerRequest(httpMethod: string, url: string, token: string): Request
  {
    Request(httpMethod, url, map["Authorization" := BearerAuthorization(token)])
  }

  /**
   * The request of `fetchMobileDeviceDetailsJson`: the bearer header is set
   * first, and then `allHTTPHeaderFields` replaces every header field.
   */
  function JsonDetailsRequest(url: string, token: string): Request
  {
    BearerRequest("GET", url, token).(headers := map["accept" := "application/json"])
  }

  /**
   * The JSON details request asks for JSON and carries no credentials at
   * all: assigning all header fields dropped the bearer header set before.
   */
  lemma JsonDetailsRequestHasNoCredentials(url: string, token: string)
    ensures var r := JsonDetailsRequest(url, token);
      && r.httpMethod == "GET" && r.url == url
      && r.headers.Keys == {"accept"} && r.headers["accept"] == "application/json"
      && "Authorization" !in r.headers && BearerAuthorization(token) !in r.headers.Values
  {
    assert "Authorization" != "accept";
    assert BearerAuthorization(token)[0] == 'B' != "application/json"[0];
  }

  // ---------------------------------------------------------------------------
  // The command answer

  /**
   * What the completion handler of `sendCommandDevice` receives once the
   * request was sent: None when the answer is neither an error nor an HTTP
   * response, since the handler is then never called.
   */
  function CommandCompletion<D>(command: string, outcome: Outcome<D>): Option<CommandResult>
  {
    match outcome
    case TransportError(description) =>
      Some(CommandResult(false, "Error " + command + " device: " + description))
    case Response(status, _) =>
      match status
      case None => None
      case Some(code) =>
        if code == 201 then Some(CommandResult(true, command + " wurde durchgeführt"))
        else Some(CommandResult(false, "Fehler, versuch es später erneut"))
  }

  /**
   * A command succeeds exactly when the server answers 201 Created; a
   * transport error reports its description, every other HTTP status the
   * generic failure, and the handler stays silent only for a response that
   * is not HTTP.
   */
  lemma CommandSucceedsExactlyOn201<D>(command: string, outcome: Outcome<D>)
    ensures var r := CommandCompletion(command, outcome);
      && (r.Some? && r.value.success <==> outcome.Response? && outcome.status == Some(201))
      && (r.None? <==> outcome.Response? && outcome.status.None?)
      && (r.Some? && r.value.success ==> r.value.message == command + " wurde durchgeführt")
      && (outcome.TransportError? ==>
            r == Some(CommandResult(false, "Error " + command + " device: " + outcome.description)))
      && (outcome.Response? && outcome.status.Some? && outcome.status.value != 201 ==>
            r == Some(CommandResult(false, "Fehler, versuch es später erneut")))
  {
  }

  // ---------------------------------------------------------------------------
  // The client

  /** The sort key of both inventory lists. */
  function DeviceName(d: JamfDevice): string { d.name }

  function MobileDeviceName(d: JamfMobileDevice): string { d.name }

  class JamfAPI {
    var computers: seq<JamfDevice>
    var mobileDevices: seq<JamfMobileDevice>
    var mobileDeviceDetails: Option<JamfMobileDeviceDetails>
    var mobileDeviceDetailsJson: Option<map<string, JsonValue>>
    var authToken: Option<string>
    var username: string
    var password: string
    var jamfURL: string

    constructor ()
      ensures computers == [] && mobileDevices == [] && mobileDeviceDetails == None
      ensures mobileDeviceDetailsJson == None && authToken == None
      ensures username == "" && password == "" && jamfURL == ""
    {
      computers := [];
      mobileDevices := [];
      mobileDeviceDetails := None;
      mobileDeviceDetailsJson := None;
      authToken := None;
      username := "";
      password := "";
      jamfURL := "";
    }

    /** `configure`: stores the three settings and touches nothing else, the token included. */
    method Configure(username: string, password: string, jamfURL: string)
      modifies this`username, this`password, this`jamfURL
      ensures this.username == username && this.password == password && this.jamfURL == jamfURL
    {
      this.username := username;
      this.password := password;
      this.jamfURL := jamfURL;
    }

    /**
     * `authenticate`: returns the request it sends (None when the URL is
     * invalid) and the value its completion receives (None when the
     * completion is never called). The body is whatever `JSONDecoder` made of
     * the data: None when it did not decode as `{token, expires}`.
     */
    method Authenticate(validUrl: string -> bool, outcome: Outcome<Option<AuthResponse>>)
      returns (sent: Option<Request>, completion: Option<bool>)
      modifies this`authToken
      ensures sent == if validUrl(TokenUrl(jamfURL)) then Some(LoginRequest(TokenUrl(jamfURL), username, password)) else None
      ensures completion == Some(true) <==>
        sent.Some? && outcome.Response? && (outcome.status.None? || outcome.status == Some(200))
        && outcome.body.Some? && outcome.body.value.Some?
      ensures completion == Some(true) ==> authToken == Some(outcome.body.value.value.token)
      ensures completion != Some(true) ==> authToken == old(authToken)
      ensures completion == None <==>
        sent.Some? && outcome.Response? && (outcome.status.None? || outcome.status == Some(200)) && outcome.body.None?
    {
      var url := TokenUrl(jamfURL);
      if !validUrl(url) {
        return None, Some(false);
      }
      sent := Some(LoginRequest(url, username, password));
      match outcome {
        case TransportError(_) =>
          completion := Some(false);
        case Response(status, body) =>
          if status.Some? && status.value != 200 {
            completion := Some(false);
          } else if body.None? {
            completion := None;
          } else if body.value.None? {
            completion := Some(false);
          } else {
            authToken := Some(body.value.value.token);
            completion := Some(true);
          }
      }
    }

    /**
     * `fetchComputers`: without a token nothing is sent and nothing changes;
     * with a body, whatever the status, `computers` becomes the decoded list
     * sorted ascending by name.
     */
    method FetchComputers(validUrl: string -> bool, outcome: Outcome<seq<Event>>) returns (sent: Option<Request>)
      modifies this`computers
      ensures sent == if validUrl(ComputersUrl(jamfURL)) && authToken.Some? then
          Some(BearerRequest("GET", ComputersUrl(jamfURL), authToken.value))
        else None
      ensures sent.Some? && outcome.Response? && outcome.body.Some? ==>
        SortedBy(computers, DeviceName)
        && multiset(computers) == multiset(Decode(outcome.body.value, Computers).devices)
      ensures !(sent.Some? && outcome.Response? && outcome.body.Some?) ==> computers == old(computers)
    {
      var url := ComputersUrl(jamfURL);
      if !validUrl(url) || authToken.None? {
        return None;
      }
      sent := Some(BearerRequest("GET", url, authToken.value));
      if outcome.Response? && outcome.body.Some? {
        var parser := new JamfXMLParser();
        var parsed := parser.Parse(outcome.body.value, Computers);
        if parsed.DeviceList? {
          computers := SortBy(parsed.devices, DeviceName);
        }
      }
    }

    /** `fetchMobileDevices`: the same, for `mobileDevices`. */
    method FetchMobileDevices(validUrl: string -> bool, outcome: Outcome<seq<Event>>) returns (sent: Option<Request>)
      modifies this`mobileDevices
      ensures sent == if validUrl(MobileDevicesUrl(jamfURL)) && authToken.Some? then
          Some(BearerRequest("GET", MobileDevicesUrl(jamfURL), authToken.value))
        else None
      ensures sent.Some? && outcome.Response? && outcome.body.Some? ==>
        SortedBy(mobileDevices, MobileDeviceName)
        && multiset(mobileDevices) == multiset(Decode(outcome.body.value, MobileDevices).mobileDevices)
      ensures !(sent.Some? && outcome.Response? && outcome.body.Some?) ==> mobileDevices == old(mobileDevices)
    {
      var url := MobileDevicesUrl(jamfURL);
      if !validUrl(url) || authToken.None? {
        return None;
      }
      sent := Some(BearerRequest("GET", url, authToken.value));
      if outcome.Response? && outcome.body.Some? {
        var parser := new JamfXMLParser();
        var parsed := parser.Parse(outcome.body.value, MobileDevices);
        if parsed.MobileDeviceList? {
          mobileDevices := SortBy(parsed.mobileDevices, MobileDeviceName);
        }
      }
    }

    /**
     * `fetchMobileDeviceDetails`: the detail record is replaced only when the
     * answer decodes to one; otherwise it is left as it was.
     */
    method FetchMobileDeviceDetails(validUrl: string -> bool, deviceId: string, outcome: Outcome<seq<Event>>)
      returns (sent: Option<Request>)
      modifies this`mobileDeviceDetails
      ensures sent == if validUrl(MobileDeviceUrl(jamfURL, deviceId)) && authToken.Some? then
          Some(BearerRequest("GET", MobileDeviceUrl(jamfURL, deviceId), authToken.value))
        else None
      ensures mobileDeviceDetails ==
        if sent.Some? && outcome.Response? && outcome.body.Some?
           && Decode(outcome.body.value, MobileDeviceDetails).details.Some?
        then Decode(outcome.body.value, MobileDeviceDetails).details
        else old(mobileDeviceDetails)
    {
      var url := MobileDeviceUrl(jamfURL, deviceId);
      if !validUrl(url) || authToken.None? {
        return None;
      }
      sent := Some(BearerRequest("GET", url, authToken.value));
      if outcome.Response? && outcome.body.Some? {
        var parser := new JamfXMLParser();
        var parsed := parser.Parse(outcome.body.value, MobileDeviceDetails);
        if parsed.Details? && parsed.details.Some? {
          mobileDeviceDetails := parsed.details;
        }
      }
    }

    /**
     * `fetchMobileDeviceDetailsJson`: a body that is a JSON object replaces
     * the stored object, any other JSON value clears it, and a body that does
     * not parse leaves it alone.
     */
    method FetchMobileDeviceDetailsJson(validUrl: string -> bool, deviceId: string, outcome: Outcome<JsonParse>)
      returns (sent: Option<Request>)
      modifies this`mobileDeviceDetailsJson
      ensures sent == if validUrl(MobileDeviceUrl(jamfURL, deviceId)) && authToken.Some? then
          Some(JsonDetailsRequest(MobileDeviceUrl(jamfURL, deviceId), authToken.value))
        else None
      ensures mobileDeviceDetailsJson ==
        if sent.Some? && outcome.Response? && outcome.body.Some? && outcome.body.value.Parsed? then
          (if outcome.body.value.value.JsonObject? then Some(outcome.body.value.value.members) else None)
        else old(mobileDeviceDetailsJson)
    {
      var url := MobileDeviceUrl(jamfURL, deviceId);
      if !validUrl(url) || authToken.None? {
        return None;
      }
      sent := Some(JsonDetailsRequest(url, authToken.value));
      if outcome.Response? && outcome.body.Some? {
        match outcome.body.value {
          case Malformed =>
          case Parsed(value) =>
            mobileDeviceDetailsJson := if value.JsonObject? then Some(value.members) else None;
        }
      }
    }

    /**
     * `sendCommandDevice`: changes nothing; returns the request it sends and
     * what its completion receives (None when it is never called).
     */
    method SendCommandDevice<D>(validUrl: string -> bool, deviceId: string, command: string, outcome: Outcome<D>)
      returns (sent: Option<Request>, completion: Option<CommandResult>)
      ensures !validUrl(CommandUrl(jamfURL, command, deviceId)) ==>
        sent.None? && completion == Some(CommandResult(false, "Invalid URL"))
      ensures validUrl(CommandUrl(jamfURL, command, deviceId)) && authToken.None? ==>
        sent.None? && completion == Some(CommandResult(false, "Auth token is missing"))
      ensures validUrl(CommandUrl(jamfURL, command, deviceId)) && authToken.Some? ==>
        sent == Some(BearerRequest("POST", CommandUrl(jamfURL, command, deviceId), authToken.value))
        && completion == CommandCompletion(command, outcome)
    {
      var url := CommandUrl(jamfURL, command, deviceId);
      if !validUrl(url) {
        return None, Some(CommandResult(false, "Invalid URL"));
      }
      if authToken.None? {
        return None, Some(CommandResult(false, "Auth token is missing"));
      }
      sent := Some(BearerRequest("POST", url, authToken.value));
      completion := CommandCompletion(command, outcome);
    }
  }
}

/** `validate_address`, which queries the Smarty US Street API and turns its answer into a
    `(bool, message)` pair. AI_VoiceAgent_Creation.py and neurality_voice_agent.py carry two
    copies that differ only in layout; this module models both. */
module AddressValidation {
  import opened Wrappers
  import opened Text

  /** The Smarty credentials read from the environment at start-up. */
  datatype Credentials = Credentials(authId: string, authToken: string)

  /** Python truthiness of an optional text argument: neither `None` nor empty. */
  predicate Truthy(o: Option<string>)
  {
    o.Some? && |o.value| > 0
  }

  const AuthIdKey := "auth-id"
  const AuthTokenKey := "auth-token"
  const StreetKey := "street"
  const CityKey := "city"
  const StateKey := "state"
  const ZipcodeKey := "zipcode"

  /** Adds `key` to `params` when `value` is truthy (`if city: params["city"] = city`). */
  function AddIfTruthy(params: map<string, string>, key: string, value: Option<string>): map<string, string>
  {
    if Truthy(value) then params[key := value.value] else params
  }

  /** The query parameters sent to the street-address endpoint: credentials and street
      always; city, state and zipcode only when truthy; nothing else. */
  function QueryParams(cred: Credentials, street: string, city: Option<string>,
                       state: Option<string>, zipcode: Option<string>): (p: map<string, string>)
    ensures AuthIdKey in p && p[AuthIdKey] == cred.authId
    ensures AuthTokenKey in p && p[AuthTokenKey] == cred.authToken
    ensures StreetKey in p && p[StreetKey] == street
    ensures CityKey in p <==> Truthy(city)
    ensures StateKey in p <==> Truthy(state)
    ensures ZipcodeKey in p <==> Truthy(zipcode)
    ensures CityKey in p ==> p[CityKey] == city.value
    ensures StateKey in p ==> p[StateKey] == state.value
    ensures ZipcodeKey in p ==> p[ZipcodeKey] == zipcode.value
    ensures p.Keys <= {AuthIdKey, AuthTokenKey, StreetKey, CityKey, StateKey, ZipcodeKey}
  {
    var base := map[AuthIdKey := cred.authId, AuthTokenKey := cred.authToken, StreetKey := street];
    AddIfTruthy(AddIfTruthy(AddIfTruthy(base, CityKey, city), StateKey, state), ZipcodeKey, zipcode)
  }

  /** The `analysis` entry of a candidate: absent, an object (whose `dpv_match_code` is `None`
      when that key is absent), or present but not an object (`null`, a list, a string, a
      number), on which the second `.get` raises `AttributeError`. */
  datatype AnalysisField = NoAnalysis | AnalysisObject(dpvMatchCode: Option<string>) | AnalysisNotObject

  /** One element of the JSON array the API answers with. */
  datatype Candidate = Candidate(analysis: AnalysisField)

  /** The decoded response body: a JSON array of candidates, or text `response.json()` cannot
      decode. */
  datatype Body = Candidates(items: seq<Candidate>) | NotJson

  /** What the HTTP GET returned. */
  datatype Response = Response(status: int, body: Body)

  /** The exceptions `validate_address` lets escape, none of which it catches:
      `requests.get` failing to connect (no timeout is set), `response.json()` failing to
      decode the body (it runs before the status code is looked at), and `.get` called on an
      `analysis` that is not an object. */
  datatype ValidationError = ConnectionError | JsonDecodeError | AttributeError

  /** The `(bool, message)` pair returned to the caller. */
  datatype Verdict = Verdict(valid: bool, message: string)

  const NotFoundMessage := "Address not found or incomplete."
  const ValidMessage := "Address is valid and complete."
  const MissingUnitMessage := "Missing apartment or suite number."
  const InvalidPrefix := "Invalid address (DPV code: "
  const InvalidSuffix := ")"

  /** `data[0].get("analysis", {}).get("dpv_match_code", "")`, or `None` where it raises. */
  function MatchCode(c: Candidate): (code: Option<string>)
    ensures c.analysis.NoAnalysis? ==> code == Some("")
    ensures c.analysis.AnalysisObject? && c.analysis.dpvMatchCode.None? ==> code == Some("")
    ensures c.analysis.AnalysisObject? && c.analysis.dpvMatchCode.Some? ==> code == c.analysis.dpvMatchCode
    ensures code.None? <==> c.analysis.AnalysisNotObject?
  {
    match c.analysis
    case NoAnalysis => Some("")
    case AnalysisObject(dpv) => Some(dpv.GetOr(""))
    case AnalysisNotObject => None
  }

  /** The message for a DPV code other than "Y" and "D". */
  function InvalidMessage(code: string): string
  {
    InvalidPrefix + code + InvalidSuffix
  }

  /** The classification of a response that decoded as JSON. A failed status or an empty array
      gives the not-found message whatever the body holds, before the first candidate is
      looked at; otherwise it raises exactly when that candidate's `analysis` is not an
      object, and reports the address valid exactly when its DPV code is exactly "Y". */
  function Classify(status: int, data: seq<Candidate>): (r: Result<Verdict, ValidationError>)
    ensures status != 200 || |data| == 0 ==> r == Success(Verdict(false, NotFoundMessage))
    ensures r.Failure? <==> status == 200 && |data| > 0 && data[0].analysis.AnalysisNotObject?
    ensures r.Failure? ==> r.error == AttributeError
    ensures r.Success? ==> (r.value.valid <==> status == 200 && |data| > 0 && MatchCode(data[0]) == Some("Y"))
  {
    if status != 200 || |data| == 0 then Success(Verdict(false, NotFoundMessage))
    else
      match MatchCode(data[0])
      case None => Failure(AttributeError)
      case Some(code) =>
        if code == "Y" then Success(Verdict(true, ValidMessage))
        else if code == "D" then Success(Verdict(false, MissingUnitMessage))
        else Success(Verdict(false, InvalidMessage(code)))
  }

  /** `validate_address` with the HTTP GET supplied as `service`, a function from the query
      parameters to the response, or to `None` where `requests.get` raises. */
  function ValidateAddress(cred: Credentials, street: string, city: Option<string>, state: Option<string>,
                           zipcode: Option<string>, service: map<string, string> -> Option<Response>)
    : (r: Result<Verdict, ValidationError>)
    ensures var answer := service(QueryParams(cred, street, city, state, zipcode));
      && (r == Failure(ConnectionError) <==> answer.None?)
      && (r == Failure(JsonDecodeError) <==> answer.Some? && answer.value.body.NotJson?)
      && (answer.Some? && answer.value.body.Candidates? ==>
            r == Classify(answer.value.status, answer.value.body.items))
  {
    match service(QueryParams(cred, street, city, state, zipcode))
    case None => Failure(ConnectionError)
    case Some(resp) =>
      match resp.body
      case NotJson => Failure(JsonDecodeError)
      case Candidates(data) => Classify(resp.status, data)
  }

  /** Once the status is 200 and the array is non-empty, the first candidate's DPV code alone
      decides: "Y" is valid, "D" lacks a unit number, anything else (including the "" default
      for a missing `analysis` or `dpv_match_code`) is invalid with the code in the message. */
  lemma FirstCandidateDecides(data: seq<Candidate>)
    requires |data| > 0
    ensures MatchCode(data[0]) == Some("Y") ==> Classify(200, data) == Success(Verdict(true, ValidMessage))
    ensures MatchCode(data[0]) == Some("D") ==> Classify(200, data) == Success(Verdict(false, MissingUnitMessage))
    ensures forall code :: MatchCode(data[0]) == Some(code) && code != "Y" && code != "D" ==>
      Classify(200, data) == Success(Verdict(false, InvalidMessage(code)))
    ensures data[0].analysis.NoAnalysis? ==> Classify(200, data) == Success(Verdict(false, InvalidMessage("")))
  {
  }

  /** A non-JSON body raises even alongside a failure status such as 500: the error path
      never turns into an "invalid" verdict. */
  lemma UndecodableBodyRaises(cred: Credentials, street: string, city: Option<string>, state: Option<string>,
                              zipcode: Option<string>, service: map<string, string> -> Option<Response>,
                              status: int)
    requires service(QueryParams(cred, street, city, state, zipcode)) == Some(Response(status, NotJson))
    ensures ValidateAddress(cred, street, city, state, zipcode, service) == Failure(JsonDecodeError)
  {
  }

  /** Reads the DPV code back out of a message, where it is the "Invalid address" message. */
  function DiagnosticCode(message: string): (r: Option<string>)
  {
    if |message| >= |InvalidPrefix| + |InvalidSuffix|
       && message[..|InvalidPrefix|] == InvalidPrefix
       && message[|message| - |InvalidSuffix|..] == InvalidSuffix
    then Some(message[|InvalidPrefix|..|message| - |InvalidSuffix|])
    else None
  }

  /** The raw DPV code embedded in an "Invalid address" message can be recovered from it. */
  lemma DiagnosticCodeRoundTrip(code: string)
    ensures DiagnosticCode(InvalidMessage(code)) == Some(code)
  {
    var m := InvalidMessage(code);
    assert m[..|InvalidPrefix|] == InvalidPrefix;
    assert m[|m| - |InvalidSuffix|..] == InvalidSuffix;
    assert m[|InvalidPrefix|..|m| - |InvalidSuffix|] == code;
  }

  /** The code-specific branch: the first candidate has a DPV code other than "Y" and "D". */
  predicate OtherCode(status: int, data: seq<Candidate>)
  {
    status == 200 && |data| > 0 && MatchCode(data[0]).Some?
      && MatchCode(data[0]).value != "Y" && MatchCode(data[0]).value != "D"
  }

  /** The message alone tells which branch was taken: the three fixed messages carry no DPV
      code, every other message carries the first candidate's code, and a message reports
      validity exactly when it is the "valid" message. */
  lemma MessageIdentifiesBranch(status: int, data: seq<Candidate>)
    requires Classify(status, data).Success?
    ensures var v := Classify(status, data).value;
      && (v.valid <==> v.message == ValidMessage)
      && (DiagnosticCode(v.message).Some? <==> OtherCode(status, data))
      && (OtherCode(status, data) ==> DiagnosticCode(v.message) == MatchCode(data[0]))
  {
    var v := Classify(status, data).value;
    if OtherCode(status, data) {
      var code := MatchCode(data[0]).value;
      DiagnosticCodeRoundTrip(code);
      assert v.message[0] == 'I';
    }
    assert DiagnosticCode(NotFoundMessage).None?;
    assert DiagnosticCode(ValidMessage).None?;
    assert DiagnosticCode(MissingUnitMessage).None?;
  }
}

/** The e-mail endpoints of frontend/src/services/endpoints/emailEndpoints.js:
    the request body for generating an e-mail, the two request paths, and
    the unwrapping of the response body. The HTTP exchange itself is a
    parameter. */
module EmailEndpoints {
  import opened Wrappers
  import opened Js
  import opened Text
  import opened HttpClient

  const PayloadKeys: set<string> := {"business_info", "target_persona", "tone"}
  const BusinessInfoKeys: set<string> := {"company_name", "business_type", "product_description"}

  /** The form fields the payload reads. */
  const ParamKeys: set<string> := {"companyName", "businessType", "serviceDescription", "targetPersona", "tone"}

  /** The nested `business_info` object. */
  function BusinessInfo(params: map<string, JsValue>): (r: map<string, JsValue>)
    ensures r.Keys == BusinessInfoKeys
    ensures r["company_name"] == Prop(params, "companyName")
    ensures r["business_type"] == Prop(params, "businessType")
    ensures r["product_description"] == Prop(params, "serviceDescription")
  {
    map[
      "company_name" := Prop(params, "companyName"),
      "business_type" := Prop(params, "businessType"),
      "product_description" := Prop(params, "serviceDescription")]
  }

  /** The body posted by `generateEmail`: exactly three top-level keys, the
      business fields renamed under `business_info`. */
  function EmailPayload(params: map<string, JsValue>): (r: map<string, JsValue>)
    ensures r.Keys == PayloadKeys
    ensures r["business_info"] == JsObject(BusinessInfo(params))
    ensures r["target_persona"] == Prop(params, "targetPersona")
    ensures r["tone"] == Prop(params, "tone")
  {
    map[
      "business_info" := JsObject(BusinessInfo(params)),
      "target_persona" := Prop(params, "targetPersona"),
      "tone" := Prop(params, "tone")]
  }

  /** The form fields read back out of a payload, the reverse renaming. */
  function ParamsOf(payload: map<string, JsValue>): map<string, JsValue>
  {
    var info := Prop(payload, "business_info");
    var fields := if info.JsObject? then info.props else map[];
    map[
      "companyName" := Prop(fields, "company_name"),
      "businessType" := Prop(fields, "business_type"),
      "serviceDescription" := Prop(fields, "product_description"),
      "targetPersona" := Prop(payload, "target_persona"),
      "tone" := Prop(payload, "tone")]
  }

  /** No form field the payload reads is lost or mixed up: each reads back
      as it was given. */
  lemma PayloadRoundTrip(params: map<string, JsValue>, key: string)
    requires key in ParamKeys
    ensures Prop(ParamsOf(EmailPayload(params)), key) == Prop(params, key)
  {
  }

  /** Any other field of the form leaves the payload unchanged. */
  lemma OtherParamsIgnored(params: map<string, JsValue>, key: string, v: JsValue)
    requires key !in ParamKeys
    ensures EmailPayload(params[key := v]) == EmailPayload(params)
  {
    assert BusinessInfo(params[key := v]) == BusinessInfo(params);
  }

  const GeneratePrefix: string := "/api/v1/generate-email/"
  const EmailsPrefix: string := "/api/v1/emails/"

  /** `/api/v1/generate-email/${analysisId}`. */
  function GenerateEmailPath(analysisId: string): (r: string)
    ensures StartsWith(r, GeneratePrefix) && r[|GeneratePrefix|..] == analysisId
  {
    GeneratePrefix + analysisId
  }

  /** `/api/v1/emails/${analysisId}`. */
  function EmailsPath(analysisId: string): (r: string)
    ensures StartsWith(r, EmailsPrefix) && r[|EmailsPrefix|..] == analysisId
  {
    EmailsPrefix + analysisId
  }

  /** Different analyses get different paths, and the two endpoints never
      share one. */
  lemma PathsDistinct(a: string, b: string)
    ensures GenerateEmailPath(a) == GenerateEmailPath(b) ==> a == b
    ensures EmailsPath(a) == EmailsPath(b) ==> a == b
    ensures GenerateEmailPath(a) != EmailsPath(b)
  {
    assert GenerateEmailPath(a)[8] == 'g';
    assert EmailsPath(b)[8] == 'e';
  }

  /** A request as the HTTP client receives it. */
  datatype HttpRequest =
    | Post(path: string, body: JsValue)
    | Get(path: string)

  /** Hands `send`'s response body back, or its error unchanged. */
  function BodyOf(response: Result<HttpResponse, HttpError>): (r: Result<JsValue, HttpError>)
    ensures r.Success? <==> response.Success?
    ensures response.Success? ==> r.value == response.value.data
    ensures response.Failure? ==> r.error == response.error
  {
    match response
    case Success(resp) => Success(resp.data)
    case Failure(e) => Failure(e)
  }

  /** `generateEmail`: one POST of the payload to the analysis's path. */
  function GenerateEmail(analysisId: string, params: map<string, JsValue>,
                         send: HttpRequest -> Result<HttpResponse, HttpError>): (r: Result<JsValue, HttpError>)
    ensures var response := send(Post(GenerateEmailPath(analysisId), JsObject(EmailPayload(params))));
      && (r.Success? <==> response.Success?)
      && (response.Success? ==> r.value == response.value.data)
      && (response.Failure? ==> r.error == response.error)
  {
    BodyOf(send(Post(GenerateEmailPath(analysisId), JsObject(EmailPayload(params)))))
  }

  /** `getEmails`: one GET of the analysis's e-mails. */
  function GetEmails(analysisId: string, send: HttpRequest -> Result<HttpResponse, HttpError>): (r: Result<JsValue, HttpError>)
    ensures var response := send(Get(EmailsPath(analysisId)));
      && (r.Success? <==> response.Success?)
      && (response.Success? ==> r.value == response.value.data)
      && (response.Failure? ==> r.error == response.error)
  {
    BodyOf(send(Get(EmailsPath(analysisId))))
  }
}

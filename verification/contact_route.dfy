// The contact form endpoint (`POST /api/contact`): honeypot, reCAPTCHA v3 check, then
// delivery through exactly one provider (Monkeysmail or a Drupal webform). The remote
// services are an oracle object that answers from a fixed script and logs every call.
module ContactRoute {
  import opened Common
  import opened Text

  /** The parsed JSON body: absent keys are `undefined`, present ones are strings. */
  type Form = map<string, string>

  /** `form.k || ""`. */
  function Field(form: Form, k: string): string {
    if k in form then form[k] else ""
  }

  /** `form.k || d`: the field when it is a non-empty string, otherwise the default. */
  function FieldOr(form: Form, k: string, d: string): (r: string)
    ensures Field(form, k) != "" ==> r == form[k]
    ensures Field(form, k) == "" ==> r == d
  {
    if Field(form, k) != "" then form[k] else d
  }

  /** JavaScript truthiness of a string field. */
  predicate Truthy(form: Form, k: string) {
    Field(form, k) != ""
  }

  /** The process environment the route reads; `None` is an unset variable. */
  datatype Env = Env(
    recaptchaSecret: Option<string>,
    monkeysmailApiKey: Option<string>,
    monkeysmailFromEmail: Option<string>,
    monkeysmailFromName: Option<string>,
    monkeysmailTo: Option<string>,
    monkeysmailApiBase: Option<string>,
    drupalBaseUrl: Option<string>,
    drupalWebformId: Option<string>,
    contactDestination: Option<string>
  )

  /** `process.env.X || d`: an unset or empty variable takes the default. */
  function EnvOr(v: Option<string>, d: string): (r: string)
    ensures v.Some? && v.value != "" ==> r == v.value
    ensures v.None? || v.value == "" ==> r == d
  {
    if v.Some? && v.value != "" then v.value else d
  }

  /** A variable interpolated into a string or a form body: unset reads as "undefined". */
  function EnvText(v: Option<string>): string {
    if v.Some? then v.value else "undefined"
  }

  /* ---------------- reCAPTCHA v3 ---------------- */

  const SiteVerifyUrl := "https://www.google.com/recaptcha/api/siteverify"
  const ExpectedAction := "contact"
  const MinScore: real := 0.5

  /** The fields of the siteverify answer the route looks at. */
  datatype SiteVerifyReply = SiteVerifyReply(success: bool, action: Option<string>, score: Option<real>)

  datatype Verdict = Pass | Fail(reason: string)

  predicate ActionMismatch(reply: SiteVerifyReply, wanted: string) {
    reply.action.Some? && reply.action.value != "" && reply.action.value != wanted
  }

  predicate LowScore(reply: SiteVerifyReply) {
    reply.score.Some? && reply.score.value < MinScore
  }

  /**
   * The three rejections in order of precedence: not successful, then an action that is
   * present and different, then a numeric score below 0.5.
   */
  function CheckReply(reply: SiteVerifyReply, wanted: string): (v: Verdict)
    ensures v == Pass <==> reply.success && !ActionMismatch(reply, wanted) && !LowScore(reply)
    ensures !reply.success ==> v == Fail("recaptcha_failed")
    ensures reply.success && ActionMismatch(reply, wanted) ==> v == Fail("recaptcha_action_mismatch")
    ensures v == Fail("recaptcha_low_score") ==> LowScore(reply)
    ensures reply.success && !ActionMismatch(reply, wanted) && LowScore(reply) ==> v == Fail("recaptcha_low_score")
    ensures v.Fail? ==> v.reason in RecaptchaReasons
  {
    if !reply.success then Fail("recaptcha_failed")
    else if ActionMismatch(reply, wanted) then Fail("recaptcha_action_mismatch")
    else if LowScore(reply) then Fail("recaptcha_low_score")
    else Pass
  }

  const RecaptchaReasons := {"recaptcha_failed", "recaptcha_action_mismatch", "recaptcha_low_score"}

  /** A score of exactly 0.5 is enough, and a missing action or score is not checked. */
  lemma ScoreThreshold(action: Option<string>, score: real)
    ensures CheckReply(SiteVerifyReply(true, None, Some(score)), ExpectedAction) == Pass <==> score >= 0.5
    ensures CheckReply(SiteVerifyReply(true, action, None), ExpectedAction) == Pass
      <==> action.None? || action.value == "" || action.value == ExpectedAction
  {
  }

  /* ---------------- the message Monkeysmail sends ---------------- */

  /** `toCsv.split(",").map(s => s.trim()).filter(Boolean)`. */
  function Recipients(toCsv: string): (to: seq<string>)
    ensures forall i :: 0 <= i < |to| ==> to[i] != "" && IsTrimmed(to[i]) && ',' !in to[i]
  {
    Pieces(toCsv, ',')
  }

  /** A list of clean addresses written as a CSV is read back as that list. */
  lemma RecipientsOfCsv(to: seq<string>)
    requires forall i :: 0 <= i < |to| ==> to[i] != "" && IsTrimmed(to[i]) && ',' !in to[i]
    ensures Recipients(Join(to, ',')) == to
  {
    PiecesOfJoin(to, ',');
  }

  /** The subject line, with "General" and "Unknown" standing in for a missing reason and name. */
  function Subject(form: Form): (s: string)
    ensures s == "[Contact] " + FieldOr(form, "reason", "General") + " — " + FieldOr(form, "name", "Unknown")
    ensures "[Contact] " <= s
    ensures Truthy(form, "reason") ==> "[Contact] " + form["reason"] + " — " <= s
    ensures !Truthy(form, "reason") ==> "[Contact] General — " <= s
    ensures Truthy(form, "name") ==> |form["name"]| <= |s| && s[|s| - |form["name"]|..] == form["name"]
    ensures !Truthy(form, "name") ==> 7 <= |s| && s[|s| - 7..] == "Unknown"
  {
    var reason := FieldOr(form, "reason", "General");
    var name := FieldOr(form, "name", "Unknown");
    HeadPrefixes("[Contact] ", reason, " — ", name);
    var s := "[Contact] " + reason + " — " + name;
    assert s[|s| - |name|..] == name;
    s
  }

  /** Both heads of a four-part text are prefixes of it. */
  lemma HeadPrefixes(p: string, m: string, q: string, t: string)
    ensures p <= p + m + q + t && p + m + q <= p + m + q + t
  {
    assert (p + m + q + t)[..|p|] == p;
    assert (p + m + q + t)[..|p + m + q|] == p + m + q;
  }

  /** The six lines of the plain-text body: four labelled fields, a blank line, the message. */
  function BodyLines(form: Form): (lines: seq<string>)
    ensures |lines| == 6 && lines[4] == ""
    ensures lines[5] == Trim(Field(form, "message"))
    ensures lines[0] == "Name: " + Field(form, "name") && lines[1] == "Email: " + Field(form, "email")
    ensures lines[2] == "Company: " + Field(form, "company") && lines[3] == "Reason: " + Field(form, "reason")
  {
    var message := Trim(Field(form, "message"));
    var head := [ "Name: " + Field(form, "name"),
                  "Email: " + Field(form, "email"),
                  "Company: " + Field(form, "company"),
                  "Reason: " + Field(form, "reason"),
                  "" ];
    head + [message]
  }

  function BodyText(form: Form): string {
    Join(BodyLines(form), '\n')
  }

  /**
   * When no field holds a line feed, the text body splits back into exactly its six
   * lines, so each field can be read off its own line.
   */
  lemma BodyTextLines(form: Form)
    requires '\n' !in Field(form, "name") && '\n' !in Field(form, "email")
    requires '\n' !in Field(form, "company") && '\n' !in Field(form, "reason")
    requires '\n' !in Field(form, "message")
    ensures Split(BodyText(form), '\n') == BodyLines(form)
  {
    TrimAvoids(Field(form, "message"), '\n');
    ConcatAvoids("Name: ", Field(form, "name"), '\n');
    ConcatAvoids("Email: ", Field(form, "email"), '\n');
    ConcatAvoids("Company: ", Field(form, "company"), '\n');
    ConcatAvoids("Reason: ", Field(form, "reason"), '\n');
    var lines := BodyLines(form);
    assert forall i :: 0 <= i < |lines| ==> '\n' !in lines[i];
    SplitJoin(lines, '\n');
  }

  /** The sender; an unset `MONKEYSMAIL_FROM_EMAIL` leaves `email` out of the JSON payload. */
  datatype Sender = Sender(email: Option<string>, name: string)

  /** The JSON payload posted to Monkeysmail (the HTML rendition is not modelled). */
  datatype Message = Message(
    from: Sender,
    to: seq<string>,
    subject: string,
    text: string,
    tags: seq<string>,
    replyTo: Option<string>
  )

  /** The payload `sendViaMonkeysmail` builds, or `None` when `MONKEYSMAIL_TO` is unset and `split` throws. */
  function ComposeMessage(env: Env, form: Form): (m: Option<Message>)
    ensures m.Some? <==> env.monkeysmailTo.Some?
    ensures m.Some? ==> m.value.to == Recipients(env.monkeysmailTo.value)
    ensures m.Some? ==> m.value.from.name == EnvOr(env.monkeysmailFromName, "ColibriV")
    ensures m.Some? ==> m.value.from.email == env.monkeysmailFromEmail
    ensures m.Some? ==> m.value.subject == Subject(form) && m.value.text == BodyText(form)
    ensures m.Some? ==> (m.value.replyTo.Some? <==> Truthy(form, "email"))
    ensures m.Some? && m.value.replyTo.Some? ==> m.value.replyTo.value == form["email"]
    ensures m.Some? ==> m.value.tags == ["contact-form"]
  {
    if env.monkeysmailTo.None? then None
    else
      Some(Message(
        Sender(env.monkeysmailFromEmail, EnvOr(env.monkeysmailFromName, "ColibriV")),
        Recipients(env.monkeysmailTo.value),
        Subject(form),
        BodyText(form),
        ["contact-form"],
        if Truthy(form, "email") then Some(form["email"]) else None))
  }

  function MonkeysmailUrl(env: Env): string {
    EnvOr(env.monkeysmailApiBase, "https://smtp.monkeysmail.com") + "/messages/send?mode=sync"
  }

  /* ---------------- the Drupal webform submission ---------------- */

  function DrupalBase(env: Env): string {
    if env.drupalBaseUrl.Some? then DropTrailingSlash(env.drupalBaseUrl.value) else "undefined"
  }

  function WebformId(env: Env): string {
    EnvOr(env.drupalWebformId, "contact")
  }

  datatype WebformPayload = WebformPayload(
    webformId: string, name: string, email: string, company: string, reason: string, message: string)

  /** Every form field defaults to "", and the message is sent untrimmed. */
  function ComposeWebform(env: Env, form: Form): (p: WebformPayload)
    ensures p.webformId == WebformId(env)
    ensures p.message == Field(form, "message")
    ensures p.name == Field(form, "name") && p.email == Field(form, "email")
    ensures p.company == Field(form, "company") && p.reason == Field(form, "reason")
  {
    WebformPayload(WebformId(env), Field(form, "name"), Field(form, "email"),
                   Field(form, "company"), Field(form, "reason"), Field(form, "message"))
  }

  /* ---------------- the remote services ---------------- */

  /** An HTTP answer; `ok` is a 2xx status. */
  datatype Reply = Reply(status: int, body: string)

  predicate Ok(r: Fetched<Reply>) {
    r.Fetched? && 200 <= r.value.status <= 299
  }

  /** One outbound request, as the remote service sees it. */
  datatype Call =
    | SiteVerify(url: string, secret: string, response: string)
    | MonkeysmailSend(url: string, apiKey: string, message: Message)
    | CsrfToken(url: string)
    | WebformSubmit(url: string, csrf: string, payload: WebformPayload)

  predicate IsProviderCall(c: Call) {
    !c.SiteVerify?
  }

  predicate IsMonkeysmailCall(c: Call) {
    c.MonkeysmailSend?
  }

  predicate IsDrupalCall(c: Call) {
    c.CsrfToken? || c.WebformSubmit?
  }

  /**
   * What each service answers. `FetchFailed` stands for anything that throws on the way
   * to a usable answer: the request itself or reading its body.
   */
  datatype Answers = Answers(
    verify: Fetched<SiteVerifyReply>,
    send: Fetched<Reply>,
    token: Fetched<Reply>,
    submit: Fetched<Reply>
  )

  /** The outside world: scripted answers and the log of the requests made so far. */
  class Remote {
    const answers: Answers
    ghost var log: seq<Call>

    constructor (answers: Answers)
      ensures this.answers == answers && log == []
    {
      this.answers := answers;
      log := [];
    }

    method Verify(secret: string, token: string) returns (r: Fetched<SiteVerifyReply>)
      modifies this
      ensures r == answers.verify
      ensures log == old(log) + [SiteVerify(SiteVerifyUrl, secret, token)]
    {
      log := log + [SiteVerify(SiteVerifyUrl, secret, token)];
      r := answers.verify;
    }

    method Send(url: string, apiKey: string, message: Message) returns (r: Fetched<Reply>)
      modifies this
      ensures r == answers.send
      ensures log == old(log) + [MonkeysmailSend(url, apiKey, message)]
    {
      log := log + [MonkeysmailSend(url, apiKey, message)];
      r := answers.send;
    }

    method Token(url: string) returns (r: Fetched<Reply>)
      modifies this
      ensures r == answers.token
      ensures log == old(log) + [CsrfToken(url)]
    {
      log := log + [CsrfToken(url)];
      r := answers.token;
    }

    method Submit(url: string, csrf: string, payload: WebformPayload) returns (r: Fetched<Reply>)
      modifies this
      ensures r == answers.submit
      ensures log == old(log) + [WebformSubmit(url, csrf, payload)]
    {
      log := log + [WebformSubmit(url, csrf, payload)];
      r := answers.submit;
    }
  }

  /* ---------------- the handler, as a specification ---------------- */

  /**
   * The request body as `req.json()` sees it: not valid JSON (the call throws), `null`,
   * an object (its string-valued fields), or any other JSON value.
   */
  datatype Json = Invalid | Null | Object(fields: Form) | Other

  /**
   * The form the handler reads from the body. Invalid JSON throws in `req.json()` and
   * `null` throws at `data._hp_`, so both are `None`; on an array, number, string or
   * boolean every field reads as undefined, so it is the empty form.
   */
  function FormOf(json: Json): (body: Option<Form>)
    ensures body.None? <==> json.Invalid? || json.Null?
    ensures json.Object? ==> body == Some(json.fields)
    ensures json.Other? ==> body == Some(map[])
  {
    match json
    case Invalid => None
    case Null => None
    case Object(fields) => Some(fields)
    case Other => Some(map[])
  }

  datatype Body = Text(text: string) | JsonOk

  datatype Response = Response(status: int, body: Body)

  const ServerError := Response(500, Text("server_error"))

  /** The responses of a run together with the requests it made, in order. */
  datatype Run = Run(response: Response, calls: seq<Call>)

  /** The requests `sendViaMonkeysmail` makes, and whether it returns without throwing. */
  function MonkeysmailCalls(env: Env, form: Form): seq<Call> {
    match ComposeMessage(env, form)
    case None => []
    case Some(m) => [MonkeysmailSend(MonkeysmailUrl(env), EnvText(env.monkeysmailApiKey), m)]
  }

  predicate MonkeysmailDelivers(env: Env, form: Form, ans: Answers) {
    env.monkeysmailTo.Some? && Ok(ans.send)
  }

  /** The requests `sendViaDrupalWebform` makes: the token, then the submission only if the token came. */
  function DrupalCalls(env: Env, form: Form, ans: Answers): seq<Call> {
    [CsrfToken(DrupalBase(env) + "/session/token")]
    + if Ok(ans.token)
      then [WebformSubmit(DrupalBase(env) + "/webform_rest/submit/" + WebformId(env),
                          ans.token.value.body, ComposeWebform(env, form))]
      else []
  }

  predicate DrupalDelivers(ans: Answers) {
    Ok(ans.token) && Ok(ans.submit)
  }

  predicate ToDrupal(env: Env) {
    EnvOr(env.contactDestination, "monkeysmail") == "drupal"
  }

  /** The requests the provider chosen by `CONTACT_DESTINATION` makes. */
  function DeliveryCalls(env: Env, form: Form, ans: Answers): seq<Call> {
    if ToDrupal(env) then DrupalCalls(env, form, ans) else MonkeysmailCalls(env, form)
  }

  /** The chosen provider accepted the message. */
  predicate Delivered(env: Env, form: Form, ans: Answers) {
    if ToDrupal(env) then DrupalDelivers(ans) else MonkeysmailDelivers(env, form, ans)
  }

  /** The request `verifyRecaptcha` makes for a form that carries a token. */
  function VerifyCall(env: Env, form: Form): Call
    requires Truthy(form, "grecaptchaToken")
  {
    SiteVerify(SiteVerifyUrl, EnvText(env.recaptchaSecret), form["grecaptchaToken"])
  }

  /**
   * The whole handler on a request body (`None` when it is not a JSON object), the
   * environment and the services' answers.
   */
  function PostRun(env: Env, body: Option<Form>, ans: Answers): Run {
    match body
    case None => Run(ServerError, [])
    case Some(form) =>
      if Truthy(form, "_hp_") then Run(Response(200, Text("OK")), [])
      else if !Truthy(form, "grecaptchaToken") then Run(Response(400, Text("missing recaptcha")), [])
      else
        var check := [VerifyCall(env, form)];
        match ans.verify
        case FetchFailed => Run(ServerError, check)
        case Fetched(reply) =>
          var verdict := CheckReply(reply, ExpectedAction);
          if verdict.Fail? then Run(Response(400, Text(verdict.reason)), check)
          else
            Run(if Delivered(env, form, ans) then Response(200, JsonOk) else ServerError,
                check + DeliveryCalls(env, form, ans))
  }

  /** The request passed the honeypot, carried a token and the token was accepted. */
  predicate Verified(body: Option<Form>, ans: Answers) {
    body.Some? && !Truthy(body.value, "_hp_") && Truthy(body.value, "grecaptchaToken")
    && ans.verify.Fetched? && CheckReply(ans.verify.value, ExpectedAction) == Pass
  }

  /** After a passed check the run is the token check followed by the chosen provider's requests. */
  lemma PostRunVerified(env: Env, body: Option<Form>, ans: Answers)
    requires Verified(body, ans)
    ensures PostRun(env, body, ans).calls == [VerifyCall(env, body.value)] + DeliveryCalls(env, body.value, ans)
    ensures PostRun(env, body, ans).response
      == (if Delivered(env, body.value, ans) then Response(200, JsonOk) else ServerError)
  {
  }

  /** Without a passed check at most the token check itself is requested. */
  lemma PostRunUnverified(env: Env, body: Option<Form>, ans: Answers)
    requires !Verified(body, ans)
    ensures var calls := PostRun(env, body, ans).calls;
      calls == [] || (Truthy(body.value, "grecaptchaToken") && calls == [VerifyCall(env, body.value)])
  {
  }

  /* ---------------- the handler, as code ---------------- */

  /** `verifyRecaptcha`: `None` when the request or the JSON decoding throws. */
  method VerifyRecaptcha(net: Remote, env: Env, token: string) returns (v: Option<Verdict>)
    modifies net
    ensures net.log == old(net.log) + [SiteVerify(SiteVerifyUrl, EnvText(env.recaptchaSecret), token)]
    ensures v == (if net.answers.verify.FetchFailed? then None
                  else Some(CheckReply(net.answers.verify.value, ExpectedAction)))
  {
    var data := net.Verify(EnvText(env.recaptchaSecret), token);
    if data.FetchFailed? {
      return None;
    }
    var reply := data.value;
    if !reply.success {
      return Some(Fail("recaptcha_failed"));
    }
    if reply.action.Some? && reply.action.value != "" && reply.action.value != ExpectedAction {
      return Some(Fail("recaptcha_action_mismatch"));
    }
    if reply.score.Some? && reply.score.value < MinScore {
      return Some(Fail("recaptcha_low_score"));
    }
    return Some(Pass);
  }

  /** `sendViaMonkeysmail`: `delivered` is false when it throws. */
  method SendViaMonkeysmail(net: Remote, env: Env, form: Form) returns (delivered: bool)
    modifies net
    ensures net.log == old(net.log) + MonkeysmailCalls(env, form)
    ensures delivered == MonkeysmailDelivers(env, form, net.answers)
  {
    if env.monkeysmailTo.None? {
      return false;
    }
    var fromName := EnvOr(env.monkeysmailFromName, "ColibriV");
    var apiBase := EnvOr(env.monkeysmailApiBase, "https://smtp.monkeysmail.com");
    var to := Recipients(env.monkeysmailTo.value);
    var replyTo := if Field(form, "email") != "" then Some(form["email"]) else None;
    var payload := Message(Sender(env.monkeysmailFromEmail, fromName), to,
                           Subject(form), BodyText(form), ["contact-form"], replyTo);
    var resp := net.Send(apiBase + "/messages/send?mode=sync", EnvText(env.monkeysmailApiKey), payload);
    delivered := resp.Fetched? && 200 <= resp.value.status <= 299;
  }

  /** `sendViaDrupalWebform`: `delivered` is false when it throws. */
  method SendViaDrupalWebform(net: Remote, env: Env, form: Form) returns (delivered: bool)
    modifies net
    ensures net.log == old(net.log) + DrupalCalls(env, form, net.answers)
    ensures delivered == DrupalDelivers(net.answers)
  {
    var base := DrupalBase(env);
    var webformId := WebformId(env);
    var tokenResp := net.Token(base + "/session/token");
    if !(tokenResp.Fetched? && 200 <= tokenResp.value.status <= 299) {
      return false;
    }
    var csrf := tokenResp.value.body;
    var payload := WebformPayload(webformId, Field(form, "name"), Field(form, "email"),
                                  Field(form, "company"), Field(form, "reason"), Field(form, "message"));
    var submitResp := net.Submit(base + "/webform_rest/submit/" + webformId, csrf, payload);
    delivered := submitResp.Fetched? && 200 <= submitResp.value.status <= 299;
  }

  /** `POST`: every request it makes goes through `net`, and the answer is `PostRun`'s. */
  method Post(net: Remote, env: Env, json: Json) returns (resp: Response)
    modifies net
    ensures resp == PostRun(env, FormOf(json), net.answers).response
    ensures net.log == old(net.log) + PostRun(env, FormOf(json), net.answers).calls
  {
    var body := FormOf(json);
    if body.None? {
      return ServerError;
    }
    var data := body.value;
    if Field(data, "_hp_") != "" {
      return Response(200, Text("OK"));
    }
    if Field(data, "grecaptchaToken") == "" {
      return Response(400, Text("missing recaptcha"));
    }
    ghost var log0 := net.log;
    var check := VerifyRecaptcha(net, env, data["grecaptchaToken"]);
    if check.None? {
      return ServerError;
    }
    if check.value.Fail? {
      return Response(400, Text(check.value.reason));
    }
    assert Verified(body, net.answers);
    ghost var log1 := net.log;
    assert log1 == log0 + [VerifyCall(env, data)];
    var delivered;
    if EnvOr(env.contactDestination, "monkeysmail") == "drupal" {
      delivered := SendViaDrupalWebform(net, env, data);
    } else {
      delivered := SendViaMonkeysmail(net, env, data);
    }
    assert net.log == log1 + DeliveryCalls(env, data, net.answers);
    AppendAssoc(log0, [VerifyCall(env, data)], DeliveryCalls(env, data, net.answers));
    PostRunVerified(env, body, net.answers);
    if !delivered {
      return ServerError;
    }
    return Response(200, JsonOk);
  }

  /* ---------------- what the handler guarantees ---------------- */

  /** A filled honeypot is answered 200 "OK" before any request leaves the server. */
  lemma HoneypotShortCircuit(env: Env, form: Form, ans: Answers)
    requires Truthy(form, "_hp_")
    ensures PostRun(env, Some(form), ans) == Run(Response(200, Text("OK")), [])
  {
  }

  /**
   * A body that cannot be read as JSON, or is `null`, is a 500 with no request made; any
   * other non-object JSON value carries no token and is a 400.
   */
  lemma NonObjectBodies(env: Env, json: Json, ans: Answers)
    requires !json.Object?
    ensures json.Invalid? || json.Null? ==> PostRun(env, FormOf(json), ans) == Run(ServerError, [])
    ensures json.Other? ==> PostRun(env, FormOf(json), ans) == Run(Response(400, Text("missing recaptcha")), [])
  {
    if json.Other? {
      assert !Truthy(map[], "_hp_") && !Truthy(map[], "grecaptchaToken");
    }
  }

  /** A missing token is a 400 with no request made. */
  lemma MissingTokenRejected(env: Env, form: Form, ans: Answers)
    requires !Truthy(form, "_hp_") && !Truthy(form, "grecaptchaToken")
    ensures PostRun(env, Some(form), ans) == Run(Response(400, Text("missing recaptcha")), [])
  {
  }

  /**
   * A provider is contacted only after the token check passed; when it passed, the first
   * request is the token check with the form's token and the rest go to one provider only.
   */
  lemma ProvidersOnlyAfterCheck(env: Env, body: Option<Form>, ans: Answers)
    ensures var calls := PostRun(env, body, ans).calls;
      (exists i :: 0 <= i < |calls| && IsProviderCall(calls[i])) ==> Verified(body, ans)
    ensures var calls := PostRun(env, body, ans).calls;
      |calls| > 0 ==> Truthy(body.value, "grecaptchaToken") && calls[0] == VerifyCall(env, body.value)
    ensures var calls := PostRun(env, body, ans).calls;
      (forall i :: 0 < i < |calls| ==> IsDrupalCall(calls[i]))
      || (forall i :: 0 < i < |calls| ==> IsMonkeysmailCall(calls[i]))
  {
    var calls := PostRun(env, body, ans).calls;
    if Verified(body, ans) {
      PostRunVerified(env, body, ans);
      var tail := DeliveryCalls(env, body.value, ans);
      DeliveryOneProvider(env, body.value, ans);
      assert calls == [VerifyCall(env, body.value)] + tail;
      assert forall i :: 0 < i < |calls| ==> calls[i] == tail[i - 1];
    } else {
      PostRunUnverified(env, body, ans);
      assert forall i :: 0 <= i < |calls| ==> !IsProviderCall(calls[i]);
    }
  }

  /** The requests of a delivery all go to the one provider chosen. */
  lemma DeliveryOneProvider(env: Env, form: Form, ans: Answers)
    ensures var t := DeliveryCalls(env, form, ans);
      (forall i :: 0 <= i < |t| ==> IsDrupalCall(t[i]))
      || (forall i :: 0 <= i < |t| ==> IsMonkeysmailCall(t[i]))
  {
  }

  /** The webform is never submitted unless the CSRF token was fetched successfully. */
  lemma NoSubmitWithoutToken(env: Env, body: Option<Form>, ans: Answers)
    requires !Ok(ans.token)
    ensures var calls := PostRun(env, body, ans).calls;
      forall i :: 0 <= i < |calls| ==> !calls[i].WebformSubmit?
  {
    var calls := PostRun(env, body, ans).calls;
    if Verified(body, ans) {
      PostRunVerified(env, body, ans);
      var tail := DeliveryCalls(env, body.value, ans);
      assert forall i :: 0 <= i < |tail| ==> !tail[i].WebformSubmit?;
      assert forall i :: 0 < i < |calls| ==> calls[i] == tail[i - 1];
    } else {
      PostRunUnverified(env, body, ans);
    }
  }

  /**
   * Every answer is one of four: 200 "OK" for the honeypot, 200 `{ ok: true }` after a
   * delivery, 400 with one of the token check's reasons, or 500 "server_error" for anything
   * that threw or a provider that refused.
   */
  lemma ResponsesAreFew(env: Env, body: Option<Form>, ans: Answers)
    ensures var r := PostRun(env, body, ans).response;
      r == Response(200, Text("OK")) || r == Response(200, JsonOk) || r == ServerError
      || (r.status == 400 && r.body.Text? && r.body.text in RecaptchaReasons + {"missing recaptcha"})
    ensures PostRun(env, body, ans).response == Response(200, JsonOk)
      <==> Verified(body, ans)
           && Delivered(env, body.value, ans)
  {
  }
}

/**
 * Ontos, the HTTP front of the relay (webserver/ontos/ontos.go): the guard
 * sequence that admits a GitHub delivery and hands it to Pneuma, and the audit
 * page that prints a run's log.
 *
 * The database, the HMAC and the JSON decoder are parameters: `secrets` is the
 * webhook-secret lookup, `hexHmac` the hex HMAC-SHA256 digest, `decode` the
 * decode of the body to the repository's full name (or the decoder's error
 * text), and `repos` the repository lookup by (lower-cased name, webhook id).
 */
module Ontos {
  import opened Wrappers
  import GoStrings

  const StatusOK := 200
  const StatusAccepted := 202
  const StatusPartialContent := 206
  const StatusBadRequest := 400
  const StatusUnauthorized := 401
  const StatusNotFound := 404
  const StatusInternalServerError := 500

  /**
   * A response as net/http builds it. The first `WriteHeader` or `Write`
   * fixes the status (a `Write` first fixes 200); later `WriteHeader` calls
   * are ignored.
   */
  datatype Response = Response(status: Option<int>, body: string)

  const Unwritten := Response(None, "")

  const MissingIdText := "This request is missing the id parameter"
  const InvalidIdText := "This request has an invalid id parameter"
  const BadSignatureText := "This request has a bad signature, recheck the secret and ensure it isnt the id...."
  const PongText := "pong"
  const InvalidJsonText := "This request is not a valid JSON:"
  const NotConfiguredText := "This repository is not configured on git-logs, ignoring"
  const ViewLogsText := "View logs at: "
  const AuditPath := "/audit?log_id="
  const ProcessingText := "Going to process webhook event now: "

  function WriteHeader(w: Response, code: int): Response {
    if w.status.Some? then w else w.(status := Some(code))
  }

  function Write(w: Response, data: string): Response {
    Response(if w.status.Some? then w.status else Some(StatusOK), w.body + data)
  }

  /** The status the client receives. */
  function Status(w: Response): int {
    if w.status.Some? then w.status.value else StatusOK
  }

  /** `WriteHeader(code)` then `Write(text)` on a fresh response. */
  function Reply(code: int, text: string): (w: Response)
    ensures Status(w) == code && w.body == text
  {
    Write(WriteHeader(Unwritten, code), text)
  }

  /** The request as the handler reads it: the `id` query parameter, two headers and the body. */
  datatype Request = Request(id: string, signature: string, event: string, body: string)

  datatype Env = Env(secrets: string -> Option<string>, hexHmac: (string, string) -> string,
                     decode: string -> Result<string, string>, repos: (string, string) -> Option<string>,
                     apiUrl: string)

  /** The arguments of the `go pneuma.HandleEvents(...)` call of lines 198-205 (six of them, as written). */
  datatype Handoff = Handoff(body: string, fullName: string, repoId: string, logId: string, header: string,
                             webhookId: string)

  datatype Admission = Admission(response: Response, handoff: Option<Handoff>)

  /** The statuses a guard answers with when it turns a delivery away. */
  const RejectionStatuses := {StatusOK, StatusPartialContent, StatusBadRequest, StatusUnauthorized, StatusNotFound}

  function Rejected(code: int, text: string): Admission {
    Admission(Reply(code, text), None)
  }

  /** The signature header GitHub must send for `body` under `secret`. */
  function Expected(env: Env, secret: string, body: string): string {
    "sha256=" + env.hexHmac(secret, body)
  }

  /** The first line written to an admitted delivery: where its run's log can be read. */
  function AuditLine(env: Env, logId: string): string {
    ViewLogsText + env.apiUrl + AuditPath + logId + "\n"
  }

  function ProcessingLine(req: Request): string {
    ProcessingText + req.event
  }

  /** The two lines written to an admitted delivery, in order. */
  function AcceptedText(env: Env, req: Request, logId: string): string {
    AuditLine(env, logId) + ProcessingLine(req)
  }

  /**
   * The guard chain, with the response calls in the order the handler makes
   * them. `accepted` writes the admitted response: as written, or corrected.
   */
  function Admit(req: Request, env: Env, logId: string, accepted: Response): (a: Admission)
    ensures a.handoff.Some? <==> Admissible(req, env)
    ensures a.handoff.Some? ==> a.response == accepted
    ensures a.handoff.None? ==> a.response.status.Some? && Status(a.response) in RejectionStatuses
  {
    if req.id == "" then Rejected(StatusBadRequest, MissingIdText)
    else
      match env.secrets(req.id)
      case None => Rejected(StatusNotFound, InvalidIdText)
      case Some(secret) =>
        if Expected(env, secret, req.body) != req.signature then
          Rejected(StatusUnauthorized, BadSignatureText)
        else if req.event == "ping" then Rejected(StatusOK, PongText)
        else
          match env.decode(req.body)
          case Failure(err) => Rejected(StatusBadRequest, InvalidJsonText + err)
          case Success(fullName) =>
            match env.repos(GoStrings.ToLower(fullName), req.id)
            case None => Rejected(StatusPartialContent, NotConfiguredText)
            case Some(repoId) =>
              Admission(accepted, Some(Handoff(req.body, fullName, repoId, logId, req.event, req.id)))
  }

  /** Lines 191-196 as written: the audit link is written before `WriteHeader(202)`. */
  function AcceptedAsWritten(env: Env, req: Request, logId: string): Response {
    var w := Write(Unwritten, AuditLine(env, logId));
    Write(WriteHeader(w, StatusAccepted), ProcessingLine(req))
  }

  /** The evidently intended order: `WriteHeader(202)` first. */
  function AcceptedIntended(env: Env, req: Request, logId: string): Response {
    var w := WriteHeader(Unwritten, StatusAccepted);
    Write(Write(w, AuditLine(env, logId)), ProcessingLine(req))
  }

  /** `HandleWebhookRoute` as written; `logId` is the random 128-character id of line 121. */
  function HandleWebhookRoute(req: Request, env: Env, logId: string): (a: Admission)
    ensures a.handoff.Some? <==> Admissible(req, env)
    ensures Status(a.response) != StatusAccepted
  {
    Admit(req, env, logId, AcceptedAsWritten(env, req, logId))
  }

  /** `HandleWebhookRoute` with the status written first. */
  function HandleWebhookRouteIntended(req: Request, env: Env, logId: string): (a: Admission)
    ensures a.handoff.Some? <==> Admissible(req, env)
    ensures Status(a.response) == StatusAccepted <==> a.handoff.Some?
  {
    Admit(req, env, logId, AcceptedIntended(env, req, logId))
  }

  /** Every guard passes: the conditions under which Pneuma is handed the delivery. */
  predicate Admissible(req: Request, env: Env) {
    && req.id != ""
    && env.secrets(req.id).Some?
    && Expected(env, env.secrets(req.id).value, req.body) == req.signature
    && req.event != "ping"
    && env.decode(req.body).Success?
    && env.repos(GoStrings.ToLower(env.decode(req.body).value), req.id).Some?
  }

  // ---------------------------------------------------------------------------
  // The guard order
  // ---------------------------------------------------------------------------

  /** A missing id is answered 400 before any lookup: nothing else about the request or the environment matters. */
  lemma MissingIdRejected(req: Request, env: Env, env2: Env, logId: string)
    requires req.id == ""
    ensures var a := HandleWebhookRoute(req, env, logId);
            && Status(a.response) == StatusBadRequest && a.handoff.None?
            && a == HandleWebhookRoute(req.(signature := "", event := "", body := ""), env2, "")
  {
  }

  /** An id with no secret is answered 404, whatever the signature, event and body. */
  lemma UnknownIdNotFound(req: Request, env: Env, logId: string)
    requires req.id != "" && env.secrets(req.id).None?
    ensures var a := HandleWebhookRoute(req, env, logId);
            Status(a.response) == StatusNotFound && a.handoff.None?
  {
  }

  /**
   * 401 exactly when the id has a secret and the signature header differs from
   * `"sha256=" + hex digest` by plain string comparison.
   */
  lemma BadSignatureUnauthorized(req: Request, env: Env, logId: string)
    ensures var a := HandleWebhookRoute(req, env, logId);
            Status(a.response) == StatusUnauthorized
            <==> (req.id != "" && env.secrets(req.id).Some?
                  && Expected(env, env.secrets(req.id).value, req.body) != req.signature)
  {
    var a := HandleWebhookRoute(req, env, logId);
    if Admissible(req, env) {
      AdmittedStatus(req, env, logId);
    }
  }

  /** A "ping" that passes the signature check is answered 200 "pong", with no decode, no repository lookup and no hand-off. */
  lemma PingAnsweredAfterSignature(req: Request, env: Env, logId: string,
                                   decode2: string -> Result<string, string>, repos2: (string, string) -> Option<string>)
    requires req.id != "" && env.secrets(req.id).Some?
    requires Expected(env, env.secrets(req.id).value, req.body) == req.signature
    requires req.event == "ping"
    ensures var a := HandleWebhookRoute(req, env, logId);
            && Status(a.response) == StatusOK && a.response.body == PongText && a.handoff.None?
            && a == HandleWebhookRoute(req, env.(decode := decode2, repos := repos2), logId)
  {
  }

  /** A body the decoder rejects is answered 400 with the decoder's message. */
  lemma BadJsonRejected(req: Request, env: Env, logId: string)
    requires req.id != "" && env.secrets(req.id).Some?
    requires Expected(env, env.secrets(req.id).value, req.body) == req.signature
    requires req.event != "ping" && env.decode(req.body).Failure?
    ensures var a := HandleWebhookRoute(req, env, logId);
            && Status(a.response) == StatusBadRequest && a.handoff.None?
            && a.response.body == InvalidJsonText + env.decode(req.body).error
  {
  }

  /** A repository that is not configured for the webhook is answered 206 with no hand-off. */
  lemma UnconfiguredRepositoryIgnored(req: Request, env: Env, logId: string)
    requires req.id != "" && env.secrets(req.id).Some?
    requires Expected(env, env.secrets(req.id).value, req.body) == req.signature
    requires req.event != "ping" && env.decode(req.body).Success?
    requires env.repos(GoStrings.ToLower(env.decode(req.body).value), req.id).None?
    ensures var a := HandleWebhookRoute(req, env, logId);
            Status(a.response) == StatusPartialContent && a.handoff.None?
  {
  }

  /**
   * Pneuma is handed the delivery, once, exactly when every guard passes, with
   * the body, the decoded name, the repository id of the lower-cased name, the
   * log id, the event header and the webhook id.
   */
  lemma HandoffExactlyWhenAdmissible(req: Request, env: Env, logId: string)
    ensures var a := HandleWebhookRoute(req, env, logId);
            && (a.handoff.Some? <==> Admissible(req, env))
            && (a.handoff.Some? ==>
                  var name := env.decode(req.body).value;
                  a.handoff.value == Handoff(req.body, name, env.repos(GoStrings.ToLower(name), req.id).value,
                                             logId, req.event, req.id))
  {
  }

  /** The repository is looked up by its lower-cased name: names that differ only in ASCII case are admitted alike. */
  lemma RepositoryNameCaseInsensitive(req: Request, env: Env, logId: string, other: string)
    requires env.decode(req.body).Success?
    requires GoStrings.ToLower(other) == GoStrings.ToLower(env.decode(req.body).value)
    ensures var a := HandleWebhookRoute(req, env, logId);
            var b := HandleWebhookRoute(req, env.(decode := (s: string) => if s == req.body then Success(other) else env.decode(s)), logId);
            a.response == b.response && a.handoff.Some? == b.handoff.Some?
  {
  }

  // ---------------------------------------------------------------------------
  // The accepted status
  // ---------------------------------------------------------------------------

  /**
   * As written, an admitted delivery is answered 200, not 202: the first
   * `Write` fixes the status and the later `WriteHeader(202)` is ignored.
   */
  lemma AdmittedStatus(req: Request, env: Env, logId: string)
    requires Admissible(req, env)
    ensures var a := HandleWebhookRoute(req, env, logId);
            Status(a.response) == StatusOK && a.response.body == AcceptedText(env, req, logId)
  {
    var w := Write(Unwritten, AuditLine(env, logId));
    assert "" + AuditLine(env, logId) == AuditLine(env, logId);
    assert w == Response(Some(StatusOK), AuditLine(env, logId));
    assert AcceptedAsWritten(env, req, logId) == Response(Some(StatusOK), AcceptedText(env, req, logId));
  }

  /**
   * With the header written first, an admitted delivery is answered 202 with the
   * same text, and every other outcome is as before.
   */
  lemma IntendedAdmittedStatus(req: Request, env: Env, logId: string)
    ensures var a := HandleWebhookRouteIntended(req, env, logId);
            var b := HandleWebhookRoute(req, env, logId);
            && a.handoff == b.handoff
            && (Admissible(req, env) ==> Status(a.response) == StatusAccepted && a.response.body == b.response.body)
            && (!Admissible(req, env) ==> a.response == b.response)
  {
    var w := AuditLine(env, logId);
    assert "" + w == w;
  }

  // ---------------------------------------------------------------------------
  // The audit page
  // ---------------------------------------------------------------------------

  /**
   * `AuditEvent`: the stored entries of the run named by `log_id`, one per
   * line. `lookup` is the query of line 236, a row's entries or the error.
   */
  function AuditEvent(logId: string, lookup: string -> Result<seq<string>, string>): (r: Response)
    ensures logId == "" ==> Status(r) == StatusBadRequest
    ensures Status(r) == StatusOK <==> logId != "" && lookup(logId).Success?
    ensures logId != "" && lookup(logId).Failure? ==> Status(r) == StatusInternalServerError
  {
    if logId == "" then Reply(StatusBadRequest, "Missing log_id parameter")
    else
      match lookup(logId)
      case Failure(err) => Reply(StatusInternalServerError, "Error getting log: " + err)
      case Success(entries) => Reply(StatusOK, GoStrings.Join(entries, "\n"))
  }

  /** The parameter is checked before the database is asked. */
  lemma AuditMissingId(lookup: string -> Result<seq<string>, string>, lookup2: string -> Result<seq<string>, string>)
    ensures Status(AuditEvent("", lookup)) == StatusBadRequest
    ensures AuditEvent("", lookup) == AuditEvent("", lookup2)
  {
  }

  lemma AuditLookupFailed(logId: string, lookup: string -> Result<seq<string>, string>)
    requires logId != "" && lookup(logId).Failure?
    ensures var r := AuditEvent(logId, lookup);
            Status(r) == StatusInternalServerError && r.body == "Error getting log: " + lookup(logId).error
  {
  }

  /** The entries `updateLogEntries` stores for a run's calls: one `fmt.Sprintln` line per call. */
  function LogLines(ops: seq<seq<string>>): (es: seq<string>)
    ensures |es| == |ops| && forall k :: 0 <= k < |ops| ==> es[k] == GoStrings.Sprintln(ops[k])
  {
    if ops == [] then [] else [GoStrings.Sprintln(ops[0])] + LogLines(ops[1..])
  }

  /** How the page reads back, line by line: each call's operands joined by spaces, then the empty piece its newline leaves. */
  function Pieces(ops: seq<seq<string>>): (ps: seq<string>)
    ensures |ps| == 2 * |ops|
  {
    if ops == [] then [] else [GoStrings.Join(ops[0], " ")] + ([""] + Pieces(ops[1..]))
  }

  lemma {:induction false} PiecesAt(ops: seq<seq<string>>, k: nat)
    requires k < |ops|
    ensures Pieces(ops)[2 * k] == GoStrings.Join(ops[k], " ") && Pieces(ops)[2 * k + 1] == ""
  {
    if k > 0 {
      PiecesAt(ops[1..], k - 1);
      assert Pieces(ops)[2..] == Pieces(ops[1..]);
    }
  }

  lemma Concat3(a: string, b: string, c: string)
    ensures a + b + c == a + (b + c)
  {
  }

  lemma {:induction false} JoinLogLines(ops: seq<seq<string>>)
    requires ops != []
    ensures GoStrings.Join(LogLines(ops), "\n") == GoStrings.Join(Pieces(ops), "\n")
  {
    var j0 := GoStrings.Join(ops[0], " ");
    var line := GoStrings.Sprintln(ops[0]);
    assert line == j0 + "\n";
    var tail := ops[1..];
    var rest := Pieces(tail);
    assert Pieces(ops) == [j0] + ([""] + rest);
    assert LogLines(ops) == [line] + LogLines(tail);
    GoStrings.JoinCons(j0, [""] + rest, "\n");
    if tail == [] {
      assert LogLines(ops) == [line];
      assert [""] + rest == [""];
      assert GoStrings.Join(LogLines(ops), "\n") == line;
      assert GoStrings.Join([""], "\n") == "";
      assert GoStrings.Join(Pieces(ops), "\n") == j0 + "\n" + "";
    } else {
      JoinLogLines(tail);
      var x := GoStrings.Join(rest, "\n");
      GoStrings.JoinCons(line, LogLines(tail), "\n");
      GoStrings.JoinCons("", rest, "\n");
      assert GoStrings.Join(LogLines(ops), "\n") == line + "\n" + x;
      assert GoStrings.Join([""] + rest, "\n") == "\n" + x;
      assert GoStrings.Join(Pieces(ops), "\n") == j0 + "\n" + ("\n" + x);
      var a := j0 + "\n";
      assert line + "\n" + x == a + "\n" + x;
      Concat3(a, "\n", x);
    }
  }

  lemma {:induction false} PiecesAvoidNewline(ops: seq<seq<string>>)
    requires forall k, j :: 0 <= k < |ops| && 0 <= j < |ops[k]| ==> '\n' !in ops[k][j]
    ensures forall i :: 0 <= i < |Pieces(ops)| ==> '\n' !in Pieces(ops)[i]
  {
    if ops != [] {
      PiecesAvoidNewline(ops[1..]);
      GoStrings.JoinAvoids(ops[0], " ", '\n');
      assert Pieces(ops) == [GoStrings.Join(ops[0], " ")] + ([""] + Pieces(ops[1..]));
    }
  }

  /**
   * The page of a run whose calls had newline-free operands is answered 200, and
   * splitting it on newlines gives each call's operands joined by spaces followed
   * by an empty piece: every stored entry ends in the newline `fmt.Sprintln` adds.
   * A run with no entries reads back as one empty line.
   */
  lemma AuditListsEntries(logId: string, lookup: string -> Result<seq<string>, string>, ops: seq<seq<string>>)
    requires logId != "" && lookup(logId) == Success(LogLines(ops))
    requires forall k, j :: 0 <= k < |ops| && 0 <= j < |ops[k]| ==> '\n' !in ops[k][j]
    ensures var r := AuditEvent(logId, lookup);
            && Status(r) == StatusOK
            && var lines := GoStrings.Split(r.body, '\n');
               && (ops == [] ==> lines == [""])
               && (ops != [] ==> |lines| == 2 * |ops|)
               && forall k :: 0 <= k < |ops| ==> lines[2 * k] == GoStrings.Join(ops[k], " ") && lines[2 * k + 1] == ""
  {
    if ops == [] {
      assert AuditEvent(logId, lookup).body == "";
      return;
    }
    JoinLogLines(ops);
    var ps := Pieces(ops);
    forall k | 0 <= k < |ops|
      ensures ps[2 * k] == GoStrings.Join(ops[k], " ") && ps[2 * k + 1] == ""
    {
      PiecesAt(ops, k);
    }
    PiecesAvoidNewline(ops);
    GoStrings.SplitJoin(ps, '\n');
  }
}

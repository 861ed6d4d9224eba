/**
 * The connection to a Clusterpoint storage (pycps/connection.py): its fixed
 * settings, opening the HTTP connection, and sending a request with one
 * reconnect-and-resend on a stale connection. The transport is scripted: the
 * n-th attempt to open a connection and the n-th attempt to send a request
 * have outcomes fixed in advance, so every run of the retry policy is
 * determined by the script.
 */
module Connections {
  import opened Wrappers
  import opened Errors

  /** How one `request` + `getresponse` + `read` attempt on the HTTP connection ends. */
  datatype Attempt =
    | Reply(body: string)     // the reply body was read
    | CannotSendRequest       // httplib.CannotSendRequest: the connection is stale
    | BadStatusLine           // httplib.BadStatusLine: the connection is stale
    | OtherFailure            // any other exception while sending or reading

  /** The failures that make the client reconnect and resend. */
  predicate Stale(a: Attempt)
  {
    a.CannotSendRequest? || a.BadStatusLine?
  }

  /** An HTTP request as handed to the connection. */
  datatype HttpRequest = HttpRequest(
    verb: string,
    url: string,
    body: string,
    headers: map<string, string>,
    connection: nat)          // which opened connection carried it

  /**
   * The headers of every request, a dict: the host, the XML content type and
   * the storage as recipient. The order httplib writes them in is the dict's
   * and carries no meaning, so they are a map.
   */
  function Headers(host: string, storage: string): (h: map<string, string>)
    ensures h.Keys == {"Host", "Content-Type", "Recipient"}
    ensures h["Host"] == host && h["Content-Type"] == "text/xml" && h["Recipient"] == storage
  {
    map["Host" := host, "Content-Type" := "text/xml", "Recipient" := storage]
  }

  /**
   * The reply of `_send_request` given the first attempt, whether the reopen
   * succeeds and the second attempt: a reply is returned; a stale connection
   * is reopened once and the request sent again; every failure, including a
   * failed reopen and any failure of the second attempt, is ConnectionError.
   */
  function SendOutcome(first: Attempt, reopened: bool, second: Attempt): (r: Outcome<string>)
    ensures first.Reply? ==> r == Ok(first.body)
    ensures first.OtherFailure? || (Stale(first) && !reopened) ==> r == Err(ConnectionError)
    ensures Stale(first) && reopened ==> r == (if second.Reply? then Ok(second.body) else Err(ConnectionError))
  {
    match first
    case Reply(body) => Ok(body)
    case OtherFailure => Err(ConnectionError)
    case _ =>
      if !reopened then Err(ConnectionError)
      else match second
        case Reply(body) => Ok(body)
        case _ => Err(ConnectionError)
  }

  /** How many send attempts one `_send_request` makes: a second only after a stale first attempt and a successful reopen. */
  function AttemptCount(first: Attempt, reopened: bool): nat
  {
    if Stale(first) && reopened then 2 else 1
  }

  /** Every error `_send_request` reports is ConnectionError. */
  lemma {:induction false} SendErrorsAreConnectionErrors(first: Attempt, reopened: bool, second: Attempt)
    ensures SendOutcome(first, reopened, second).Err? ==> SendOutcome(first, reopened, second).error == ConnectionError
  {
  }

  /** A failure that is not stale is final: the result does not depend on a reopen or a second attempt. */
  lemma {:induction false} NoRetryUnlessStale(first: Attempt, reopened: bool, second: Attempt)
    requires !Stale(first)
    ensures SendOutcome(first, reopened, second) == SendOutcome(first, false, OtherFailure)
    ensures AttemptCount(first, reopened) == 1
  {
  }

  /** The result is the first reply received, and at most two attempts are made. */
  lemma {:induction false} ReplyIsFromSomeAttempt(first: Attempt, reopened: bool, second: Attempt)
    ensures AttemptCount(first, reopened) <= 2
    ensures SendOutcome(first, reopened, second).Ok? <==>
      first.Reply? || (Stale(first) && reopened && second.Reply?)
    ensures SendOutcome(first, reopened, second).Ok? ==>
      SendOutcome(first, reopened, second).value == (if first.Reply? then first.body else second.body)
  {
  }

  /** The keyword defaults of `Connection`: the document root tag, the id path under it, the CGI selector, the application and the reply charset. */
  const DefaultDocumentRootXpath: string := "document"
  const DefaultDocumentIdXpath: string := "./id"
  const DefaultSelectorUrl: string := "/cgi-bin/cps2-cgi"
  const DefaultApplication: Option<string> := Some("PYCPS")
  const DefaultReplyCharset: Option<string> := None

  class Connection {
    const host: string
    const port: int
    const storage: string
    const user: string
    const password: string
    const selectorUrl: string
    const documentRootXpath: string
    const documentIdXpath: string
    const application: Option<string>
    const replyCharset: Option<string>

    /** Whether the n-th attempt to open an HTTP connection succeeds. */
    const openSucceeds: nat -> bool
    /** How the n-th attempt to send a request ends. */
    const attemptEnds: nat -> Attempt

    /** Opening attempts made so far. */
    var opens: nat
    /** Send attempts made so far. */
    var attempts: nat
    /** The opening attempt whose connection is in use. */
    var current: nat
    /** Every HTTP request issued so far, in order. */
    var sent: seq<HttpRequest>

    /** Stores the settings; no connection is open yet. */
    constructor(host: string, port: int, storage: string, user: string, password: string,
                documentRootXpath: string, documentIdXpath: string, selectorUrl: string,
                application: Option<string>, replyCharset: Option<string>,
                openSucceeds: nat -> bool, attemptEnds: nat -> Attempt)
      ensures this.host == host && this.port == port && this.storage == storage
      ensures this.user == user && this.password == password && this.selectorUrl == selectorUrl
      ensures this.documentRootXpath == documentRootXpath && this.documentIdXpath == documentIdXpath
      ensures this.application == application && this.replyCharset == replyCharset
      ensures this.openSucceeds == openSucceeds && this.attemptEnds == attemptEnds
      ensures opens == 0 && attempts == 0 && current == 0 && sent == []
    {
      this.host := host;
      this.port := port;
      this.storage := storage;
      this.user := user;
      this.password := password;
      this.selectorUrl := selectorUrl;
      this.documentRootXpath := documentRootXpath;
      this.documentIdXpath := documentIdXpath;
      this.application := application;
      this.replyCharset := replyCharset;
      this.openSucceeds := openSucceeds;
      this.attemptEnds := attemptEnds;
      opens := 0;
      attempts := 0;
      current := 0;
      sent := [];
    }

    /**
     * `Connection(...)` with every keyword setting given: the settings
     * stored and the connection opened.
     */
    static method New(host: string, port: int, storage: string, user: string, password: string,
                      documentRootXpath: string, documentIdXpath: string, selectorUrl: string,
                      application: Option<string>, replyCharset: Option<string>,
                      openSucceeds: nat -> bool, attemptEnds: nat -> Attempt)
      returns (c: Connection, err: Option<CpsError>)
      ensures fresh(c)
      ensures c.storage == storage && c.documentRootXpath == documentRootXpath && c.documentIdXpath == documentIdXpath
      ensures c.host == host && c.port == port && c.user == user && c.password == password && c.selectorUrl == selectorUrl
      ensures c.application == application && c.replyCharset == replyCharset
      ensures c.openSucceeds == openSucceeds && c.attemptEnds == attemptEnds
      ensures err == (if openSucceeds(0) then None else Some(ConnectionError))
      ensures c.opens == 1 && c.attempts == 0 && c.current == 0 && c.sent == []
    {
      c := new Connection(host, port, storage, user, password, documentRootXpath, documentIdXpath,
                          selectorUrl, application, replyCharset, openSucceeds, attemptEnds);
      err := c.OpenConnection();
    }

    /** `Connection(host, port, storage, user, password)`: every keyword setting at its default. */
    static method NewWithDefaults(host: string, port: int, storage: string, user: string, password: string,
                                  openSucceeds: nat -> bool, attemptEnds: nat -> Attempt)
      returns (c: Connection, err: Option<CpsError>)
      ensures fresh(c)
      ensures c.documentRootXpath == DefaultDocumentRootXpath && c.documentIdXpath == DefaultDocumentIdXpath
      ensures c.selectorUrl == DefaultSelectorUrl && c.application == DefaultApplication && c.replyCharset == DefaultReplyCharset
      ensures c.host == host && c.port == port && c.storage == storage && c.user == user && c.password == password
      ensures c.openSucceeds == openSucceeds && c.attemptEnds == attemptEnds
      ensures err == (if openSucceeds(0) then None else Some(ConnectionError))
      ensures c.opens == 1 && c.attempts == 0 && c.current == 0 && c.sent == []
    {
      c, err := New(host, port, storage, user, password, DefaultDocumentRootXpath, DefaultDocumentIdXpath,
                    DefaultSelectorUrl, DefaultApplication, DefaultReplyCharset, openSucceeds, attemptEnds);
    }

    /** `_open_connection`: a new HTTP connection replaces the old one; any failure is ConnectionError and keeps the old one. */
    method OpenConnection() returns (err: Option<CpsError>)
      modifies this
      ensures opens == old(opens) + 1
      ensures err == (if openSucceeds(old(opens)) then None else Some(ConnectionError))
      ensures current == (if openSucceeds(old(opens)) then old(opens) else old(current))
      ensures attempts == old(attempts) && sent == old(sent)
    {
      var ok := openSucceeds(opens);
      if ok {
        current := opens;
        err := None;
      } else {
        err := Some(ConnectionError);
      }
      opens := opens + 1;
    }

    /** One `request` + `getresponse` on the current connection. */
    method TryOnce(xmlRequest: string) returns (a: Attempt)
      modifies this
      ensures a == attemptEnds(old(attempts))
      ensures attempts == old(attempts) + 1
      ensures sent == old(sent) + [HttpRequest("POST", selectorUrl, xmlRequest, Headers(host, storage), current)]
      ensures opens == old(opens) && current == old(current)
    {
      sent := sent + [HttpRequest("POST", selectorUrl, xmlRequest, Headers(host, storage), current)];
      a := attemptEnds(attempts);
      attempts := attempts + 1;
    }

    /**
     * `_send_request` with `_send_http_request`: send, and on a stale
     * connection reopen once and send again; the reply body, or
     * ConnectionError for any failure.
     */
    method SendRequest(xmlRequest: string) returns (r: Outcome<string>)
      modifies this
      ensures var first := attemptEnds(old(attempts));
              var reopened := openSucceeds(old(opens));
              r == SendOutcome(first, reopened, attemptEnds(old(attempts) + 1)) &&
              attempts == old(attempts) + AttemptCount(first, reopened) &&
              opens == old(opens) + (if Stale(first) then 1 else 0) &&
              current == (if Stale(first) && reopened then old(opens) else old(current))
      ensures |sent| == |old(sent)| + attempts - old(attempts)
      ensures sent[..|old(sent)|] == old(sent)
      ensures forall i :: |old(sent)| <= i < |sent| ==>
        sent[i].verb == "POST" && sent[i].url == selectorUrl && sent[i].body == xmlRequest &&
        sent[i].headers == Headers(host, storage)
      ensures sent[|old(sent)|].connection == old(current)
      ensures |sent| == |old(sent)| + 2 ==> sent[|old(sent)| + 1].connection == old(opens)
    {
      var first := TryOnce(xmlRequest);
      match first
      case Reply(body) =>
        r := Ok(body);
      case OtherFailure =>
        r := Err(ConnectionError);
      case _ =>
        var err := OpenConnection();
        if err.Some? {
          r := Err(ConnectionError);
        } else {
          var second := TryOnce(xmlRequest);
          r := if second.Reply? then Ok(second.body) else Err(ConnectionError);
        }
    }
  }
}

/** Request metadata for audit entries: the client address (first entry of
    `X-Forwarded-For`, else `REMOTE_ADDR`), the user agent cut to 255
    characters, and the audit write that never raises. */
module RequestMeta {
  import opened Common
  import opened Text
  import opened TaskModels

  /** The part of a request these helpers read: its `META` dictionary. */
  datatype Request = Request(meta: map<string, string>)

  const FORWARDED_FOR: string := "HTTP_X_FORWARDED_FOR"
  const REMOTE_ADDR: string := "REMOTE_ADDR"
  const USER_AGENT: string := "HTTP_USER_AGENT"
  const USER_AGENT_MAX: nat := 255

  /** `request.META.get(key, "")`. */
  function Header(req: Request, key: string): string {
    if key in req.meta then req.meta[key] else ""
  }

  /** `get_client_ip`: no request gives no address; a non-empty forwarded
      header gives its first comma-separated entry, stripped; otherwise the
      peer address; an empty address is reported as absent. */
  function ClientIp(req: Option<Request>): (r: Option<string>)
    ensures req.None? ==> r.None?
    ensures r.Some? ==> r.value != []
    ensures req.Some? && Header(req.value, FORWARDED_FOR) != [] && r.Some? ==>
      ',' !in r.value && Trimmed(r.value)
    ensures req.Some? && Header(req.value, FORWARDED_FOR) != [] ==>
      var first := Strip(FirstField(Header(req.value, FORWARDED_FOR), ','));
      r == (if first == [] then None else Some(first))
    ensures req.Some? && Header(req.value, FORWARDED_FOR) == [] ==>
      r == (if Header(req.value, REMOTE_ADDR) == [] then None else Some(Header(req.value, REMOTE_ADDR)))
  {
    match req
    case None => None
    case Some(rq) =>
      var forwarded := Header(rq, FORWARDED_FOR);
      var ip := if forwarded != [] then Strip(FirstField(forwarded, ',')) else Header(rq, REMOTE_ADDR);
      assert forwarded != [] ==> ',' !in ip by {
        if forwarded != [] {
          StripIsInfix(FirstField(forwarded, ','));
        }
      }
      if ip != [] then Some(ip) else None
  }

  /** A forwarded header is its first entry followed either by nothing
      (a single address) or by a comma and the other entries. */
  predicate EntryThenRest(header: string, entry: string, tail: string) {
    header == entry + tail && ',' !in entry && (tail == [] || tail[0] == ',')
  }

  /** With a forwarded header whose first entry is a padded address (the
      whole header when it is a single address), the address is that entry
      without its padding, and the peer address plays no part. */
  lemma ClientIpFirstEntry(meta: map<string, string>, pad1: string, addr: string, pad2: string, tail: string,
                           peer: string)
    requires FORWARDED_FOR in meta && EntryThenRest(meta[FORWARDED_FOR], pad1 + addr + pad2, tail)
    requires AllSpace(pad1) && AllSpace(pad2) && Trimmed(addr) && addr != []
    ensures ClientIp(Some(Request(meta))) == Some(addr)
    ensures ClientIp(Some(Request(meta[REMOTE_ADDR := peer]))) == Some(addr)
  {
    var first := pad1 + addr + pad2;
    FirstFieldOfEntry(first, tail, ',');
    StripOfPadded(pad1, addr, pad2);
    assert Header(Request(meta[REMOTE_ADDR := peer]), FORWARDED_FOR) == meta[FORWARDED_FOR];
  }

  /** The text before the first separator of `a + b`, when `a` has none
      and `b` is empty or starts with one, is `a`. */
  lemma FirstFieldOfEntry(a: string, b: string, sep: char)
    requires sep !in a && (b == [] || b[0] == sep)
    ensures FirstField(a + b, sep) == a
  {
    var s := a + b;
    var r := FirstField(s, sep);
    assert |a| < |s| ==> s[|a|] == sep;
    assert forall k :: 0 <= k < |a| ==> s[k] == a[k];
    assert r == s[..|a|] == a;
  }

  /** An address made only of whitespace in the first entry is reported as
      absent, not as the empty string, whether or not other entries
      follow. */
  lemma ClientIpBlankEntry(meta: map<string, string>, blank: string, tail: string)
    requires FORWARDED_FOR in meta && EntryThenRest(meta[FORWARDED_FOR], blank, tail)
    requires AllSpace(blank) && meta[FORWARDED_FOR] != []
    ensures ClientIp(Some(Request(meta))) == None
  {
    FirstFieldOfEntry(blank, tail, ',');
  }

  /** `get_user_agent`: the header cut to its first 255 characters, `""`
      without a request or without the header. */
  function UserAgent(req: Option<Request>): (r: string)
    ensures |r| <= USER_AGENT_MAX
    ensures req.None? ==> r == []
    ensures req.Some? ==> |r| <= |Header(req.value, USER_AGENT)| && r == Header(req.value, USER_AGENT)[..|r|]
    ensures req.Some? && |Header(req.value, USER_AGENT)| <= USER_AGENT_MAX ==> r == Header(req.value, USER_AGENT)
    ensures req.Some? && |Header(req.value, USER_AGENT)| > USER_AGENT_MAX ==> |r| == USER_AGENT_MAX
  {
    match req
    case None => []
    case Some(rq) =>
      var ua := Header(rq, USER_AGENT);
      if ua != [] then Take(ua, USER_AGENT_MAX) else []
  }

  /** What `create_audit_log` returns, with the audit table afterwards. */
  datatype AuditWrite = AuditWrite(audit: seq<AuditLog>, entry: Option<AuditLog>)

  /** `create_audit_log`: when the insert succeeds the new row carries the
      request's address and user agent and the metadata (an empty map for
      none) and is returned; when it raises (`fails`), the error is
      swallowed, nothing is written and the result is `None`. */
  function CreateAuditLog(audit: seq<AuditLog>, user: Option<UserId>, action: ActionType, description: string,
                          req: Option<Request>, metadata: Option<map<string, Value>>, fails: bool,
                          now: Instant): (w: AuditWrite)
    ensures fails ==> w == AuditWrite(audit, None)
    ensures !fails ==> w.entry.Some? && w.audit == audit + [w.entry.value]
    ensures w.entry.Some? ==>
      var e := w.entry.value;
      && e.user == user && e.action == action && e.description == description
      && e.ipAddress == ClientIp(req) && e.userAgent == UserAgent(req)
      && e.metadata == (if metadata.Some? then metadata.value else map[])
      && e.createdAt == now
  {
    if fails then AuditWrite(audit, None)
    else
      var e := AuditLog(user, action, description, metadata.GetOr(map[]), ClientIp(req), UserAgent(req), now);
      AuditWrite(audit + [e], Some(e))
  }

  /** Whatever happens, the audit table only grows, by at most the one
      returned row, and the other tables are not involved. */
  lemma CreateAuditLogAppendsAtMostOne(audit: seq<AuditLog>, user: Option<UserId>, action: ActionType,
                                       description: string, req: Option<Request>,
                                       metadata: Option<map<string, Value>>, fails: bool, now: Instant)
    ensures var w := CreateAuditLog(audit, user, action, description, req, metadata, fails, now);
      && w.audit[..|audit|] == audit
      && |w.audit| == |audit| + (if w.entry.Some? then 1 else 0)
      && (w.entry.Some? ==> w.audit[|audit|] == w.entry.value)
  {
    var w := CreateAuditLog(audit, user, action, description, req, metadata, fails, now);
    if !fails {
      assert w.audit[..|audit|] == audit;
    }
  }
}

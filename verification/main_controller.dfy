/** The decision logic of MainController: which address identifies the client, how the
    login form is judged, and the defaults `index` shows for missing headers. Headers
    are `Option<string>`, `None` standing for a header the request does not carry. */
module MainController {
  import opened Wrappers
  import opened AsciiText

  /** The four proxy headers getClientIp consults, in the order it consults them. */
  datatype ProxyHeaders = ProxyHeaders(
    forwardedFor: Option<string>,   // X-Forwarded-For
    realIp: Option<string>,         // X-Real-IP
    proxyClientIp: Option<string>,  // Proxy-Client-IP
    wlProxyClientIp: Option<string>)  // WL-Proxy-Client-IP

  function HeaderList(h: ProxyHeaders): seq<Option<string>> {
    [h.forwardedFor, h.realIp, h.proxyClientIp, h.wlProxyClientIp]
  }

  /** The test getClientIp applies before moving on: null, empty, or "unknown" in any case. */
  function Rejected(ip: Option<string>): (rejected: bool)
    ensures rejected <==> ip.None? || |ip.value| == 0 || LowerAscii(ip.value) == "unknown"
    ensures rejected && ip.Some? ==> |ip.value| == 0 || |ip.value| == 7
  {
    match ip
    case None => true
    case Some(v) =>
      EqualsIgnoreCaseIffLowerEqual("unknown", v);
      |v| == 0 || EqualsIgnoreCase("unknown", v)
  }

  /** getClientIp: each header replaces the candidate only while the candidate is rejected;
      the remote address is the last resort and is not itself checked. */
  function ClientIp(h: ProxyHeaders, remoteAddr: string): (ip: string)
    ensures !Rejected(h.forwardedFor) ==> ip == h.forwardedFor.value
    ensures Rejected(h.forwardedFor) && !Rejected(h.realIp) ==> ip == h.realIp.value
    ensures Rejected(h.forwardedFor) && Rejected(h.realIp) && !Rejected(h.proxyClientIp) ==>
              ip == h.proxyClientIp.value
    ensures (Rejected(h.forwardedFor) && Rejected(h.realIp) && Rejected(h.proxyClientIp) &&
             !Rejected(h.wlProxyClientIp)) ==> ip == h.wlProxyClientIp.value
    ensures (Rejected(h.forwardedFor) && Rejected(h.realIp) && Rejected(h.proxyClientIp) &&
             Rejected(h.wlProxyClientIp)) ==> ip == remoteAddr
  {
    var ip0 := h.forwardedFor;
    var ip1 := if Rejected(ip0) then h.realIp else ip0;
    var ip2 := if Rejected(ip1) then h.proxyClientIp else ip1;
    var ip3 := if Rejected(ip2) then h.wlProxyClientIp else ip2;
    if Rejected(ip3) then remoteAddr else ip3.value
  }

  /** Reference definition: the first candidate that passes the test, if any. */
  function FirstAccepted(candidates: seq<Option<string>>): (r: Option<string>)
    decreases |candidates|
  {
    if |candidates| == 0 then None
    else if !Rejected(candidates[0]) then candidates[0]
    else FirstAccepted(candidates[1..])
  }

  /** FirstAccepted picks the accepted candidate that has only rejected ones before it. */
  lemma {:induction false} FirstAcceptedIsFirst(candidates: seq<Option<string>>)
    ensures FirstAccepted(candidates).None? <==>
              forall i :: 0 <= i < |candidates| ==> Rejected(candidates[i])
    ensures FirstAccepted(candidates).Some? ==>
              exists k :: 0 <= k < |candidates| && candidates[k] == FirstAccepted(candidates) &&
                          !Rejected(candidates[k]) &&
                          forall j :: 0 <= j < k ==> Rejected(candidates[j])
    decreases |candidates|
  {
    if |candidates| > 0 {
      var tail := candidates[1..];
      FirstAcceptedIsFirst(tail);
      if Rejected(candidates[0]) {
        if FirstAccepted(tail).Some? {
          var k :| 0 <= k < |tail| && tail[k] == FirstAccepted(tail) && !Rejected(tail[k]) &&
                   forall j :: 0 <= j < k ==> Rejected(tail[j]);
          assert candidates[k + 1] == tail[k];
          assert forall j :: 0 <= j < k + 1 ==> Rejected(candidates[j]) by {
            forall j | 0 <= j < k + 1 ensures Rejected(candidates[j]) {
              if j > 0 { assert candidates[j] == tail[j - 1]; }
            }
          }
        } else {
          assert forall i :: 0 <= i < |candidates| ==> Rejected(candidates[i]) by {
            forall i | 0 <= i < |candidates| ensures Rejected(candidates[i]) {
              if i > 0 { assert candidates[i] == tail[i - 1]; }
            }
          }
        }
      }
    }
  }

  /** getClientIp returns the first accepted header verbatim, else the remote address. */
  lemma ClientIpIsFirstAccepted(h: ProxyHeaders, remoteAddr: string)
    ensures ClientIp(h, remoteAddr) == FirstAccepted(HeaderList(h)).GetOr(remoteAddr)
  {
    var c := HeaderList(h);
    var t1, t2, t3 := c[1..], c[2..], c[3..];
    assert t1[1..] == t2 && t2[1..] == t3 && t3[1..] == [];
    assert FirstAccepted(t3) == if Rejected(h.wlProxyClientIp) then None else h.wlProxyClientIp;
    assert FirstAccepted(t2) == if Rejected(h.proxyClientIp) then FirstAccepted(t3) else h.proxyClientIp;
    assert FirstAccepted(t1) == if Rejected(h.realIp) then FirstAccepted(t2) else h.realIp;
  }

  /** Spelling "unknown" in any mix of cases rejects a header; a comma-separated list
      or a value with spaces around it is accepted and passed through unchanged. */
  lemma RejectionExamples()
    ensures Rejected(Some("UnKnOwN"))
    ensures !Rejected(Some("unknown "))
    ensures ClientIp(ProxyHeaders(Some("unknown"), Some(" 10.0.0.1, 10.0.0.2"), None, None), "127.0.0.1")
            == " 10.0.0.1, 10.0.0.2"
    ensures ClientIp(ProxyHeaders(None, Some(""), Some("UNKNOWN"), None), "") == ""
  {
  }

  const LoginView: string := "login"
  const HomeRedirect: string := "redirect:/"
  const MissingCredentialsError: string := "ID와 비밀번호를 입력해주세요."
  const BadCredentialsError: string := "ID 또는 비밀번호가 올바르지 않습니다."
  const LoginSuccessMessage: string := "로그인 성공!"

  /** What the login handler returns: a view name, the `error` model attribute it set,
      and the `message` flash attribute it set. */
  datatype LoginOutcome = LoginOutcome(view: string, error: Option<string>, flash: Option<string>)

  /** Null or nothing but trimmable characters. */
  predicate MissingField(field: Option<string>) {
    field.None? || Trim(field.value) == ""
  }

  /** The login POST handler (the remember-me flag is read by nothing). */
  function Login(username: Option<string>, password: Option<string>): (r: LoginOutcome)
    ensures r.view == HomeRedirect <==> username == Some("admin") && password == Some("admin")
    ensures r.view == HomeRedirect ==> r.flash == Some(LoginSuccessMessage) && r.error.None?
    ensures r.view != HomeRedirect ==> r.view == LoginView && r.flash.None? && r.error.Some?
    ensures (username.None? || IsBlank(username.value) || password.None? || IsBlank(password.value)) ==>
              r.error == Some(MissingCredentialsError)
    ensures !MissingField(username) && !MissingField(password) && r.view == LoginView ==>
              r.error == Some(BadCredentialsError)
  {
    if MissingField(username) || MissingField(password) then
      LoginOutcome(LoginView, Some(MissingCredentialsError), None)
    else if username.value == "admin" && password.value == "admin" then
      LoginOutcome(HomeRedirect, None, Some(LoginSuccessMessage))
    else
      LoginOutcome(LoginView, Some(BadCredentialsError), None)
  }

  /** The comparison is exact: padding or a change of case fails as bad credentials. */
  lemma LoginIsExact()
    ensures Login(Some(" admin"), Some("admin")) == LoginOutcome(LoginView, Some(BadCredentialsError), None)
    ensures Login(Some("Admin"), Some("admin")) == LoginOutcome(LoginView, Some(BadCredentialsError), None)
    ensures Login(Some("admin"), Some("   ")) == LoginOutcome(LoginView, Some(MissingCredentialsError), None)
  {
  }

  const NotAvailable: string := "N/A"
  const DirectVisit: string := "직접 접속"

  /** The header-derived attributes `index` puts in its model. */
  datatype VisitorInfo = VisitorInfo(clientIp: string, userAgent: string, acceptLanguage: string, referer: string)

  /** index: the client address by getClientIp; a missing User-Agent or Accept-Language
      shows as "N/A" and a missing Referer as a direct visit. */
  function Visitor(h: ProxyHeaders, remoteAddr: string, userAgent: Option<string>,
                   acceptLanguage: Option<string>, referer: Option<string>): (v: VisitorInfo)
    ensures v.clientIp == FirstAccepted(HeaderList(h)).GetOr(remoteAddr)
    ensures userAgent.Some? ==> v.userAgent == userAgent.value
    ensures userAgent.None? ==> v.userAgent == NotAvailable
    ensures acceptLanguage.Some? ==> v.acceptLanguage == acceptLanguage.value
    ensures acceptLanguage.None? ==> v.acceptLanguage == NotAvailable
    ensures referer.Some? ==> v.referer == referer.value
    ensures referer.None? ==> v.referer == DirectVisit
  {
    ClientIpIsFirstAccepted(h, remoteAddr);
    VisitorInfo(ClientIp(h, remoteAddr), userAgent.GetOr(NotAvailable),
                acceptLanguage.GetOr(NotAvailable), referer.GetOr(DirectVisit))
  }
}

/** The access decision of the status controller (controllers/status.go):
    which address a request is judged by, and the loopback prefix test that
    admits it. Strings stand for Go's byte strings. */
module Access {
  import opened Wrappers

  /** Header consulted when the application sits behind a proxy. */
  const ForwardedFor := "X-Forwarded-For"
  const LoopbackV4 := "127.0.0.1"
  const LoopbackV6 := "::1"

  /** The parts of a request the decision reads: `RemoteAddr` and the header
      map, from canonical header name to the header's values. */
  datatype Request = Request(remoteAddr: string, header: map<string, seq<string>>)

  /** The controller's answer: render the page, refuse with 403 naming the
      address, or panic on `proxiedAddress[0]` of a header with no values. */
  datatype Decision = Allowed | Forbidden(address: string) | HeaderIndexPanic

  /** `strings.HasPrefix`. */
  predicate HasPrefix(s: string, p: string)
  {
    |p| <= |s| && s[..|p|] == p
  }

  /** The prefix test means: `s` is `p` followed by something. */
  lemma HasPrefixIffConcat(s: string, p: string)
    ensures HasPrefix(s, p) <==> exists t :: s == p + t
  {
    if HasPrefix(s, p) {
      assert s == p + s[|p|..];
    }
    if exists t :: s == p + t {
      var t :| s == p + t;
      assert s[..|p|] == p;
    }
  }

  /** A string with a non-empty prefix starts with the prefix's first
      character. */
  lemma PrefixStartsAlike(s: string, p: string)
    requires |p| > 0
    ensures HasPrefix(s, p) ==> |s| > 0 && s[0] == p[0]
  {
    if HasPrefix(s, p) {
      assert s[..|p|][0] == s[0];
    }
  }

  /** The address the controller judges: `RemoteAddr`, unless proxy
      addresses are accepted and the forwarded-for header is present, in
      which case its first value; `None` when that header has no value. */
  function EffectiveAddress(req: Request, acceptProxy: bool): (r: Option<string>)
    ensures !acceptProxy ==> r == Some(req.remoteAddr)
    ensures acceptProxy && ForwardedFor !in req.header ==> r == Some(req.remoteAddr)
    ensures acceptProxy && ForwardedFor in req.header && |req.header[ForwardedFor]| > 0 ==>
              r == Some(req.header[ForwardedFor][0])
    ensures r.None? <==> acceptProxy && ForwardedFor in req.header && |req.header[ForwardedFor]| == 0
  {
    if acceptProxy && ForwardedFor in req.header then
      var proxied := req.header[ForwardedFor];
      if |proxied| == 0 then None else Some(proxied[0])
    else
      Some(req.remoteAddr)
  }

  /** The loopback test as written: a prefix test on the address text. */
  predicate IsLocal(address: string)
  {
    HasPrefix(address, LoopbackV4) || HasPrefix(address, LoopbackV6)
  }

  /** The decision of `Jobs.Status`: allowed exactly when the effective
      address starts with "127.0.0.1" or "::1", forbidden naming the address
      otherwise. */
  function Authorize(req: Request, acceptProxy: bool): (r: Decision)
    ensures r.Allowed? <==>
              EffectiveAddress(req, acceptProxy).Some? &&
              exists t :: EffectiveAddress(req, acceptProxy).value in {LoopbackV4 + t, LoopbackV6 + t}
    ensures r.Forbidden? ==> EffectiveAddress(req, acceptProxy) == Some(r.address)
    ensures r.HeaderIndexPanic? <==> EffectiveAddress(req, acceptProxy).None?
  {
    match EffectiveAddress(req, acceptProxy)
    case None => HeaderIndexPanic
    case Some(address) =>
      HasPrefixIffConcat(address, LoopbackV4);
      HasPrefixIffConcat(address, LoopbackV6);
      if IsLocal(address) then Allowed else Forbidden(address)
  }

  /** With proxy addresses off, the headers play no part in the decision. */
  lemma ProxyOffIgnoresHeaders(req: Request, header: map<string, seq<string>>)
    ensures Authorize(req, false) == Authorize(req.(header := header), false)
  {
  }

  /** With proxy addresses on, only the first forwarded-for value counts;
      `RemoteAddr` is then ignored. */
  lemma ProxyOnUsesFirstForwardedValue(req: Request, remoteAddr: string, rest: seq<string>)
    requires ForwardedFor in req.header && |req.header[ForwardedFor]| > 0
    ensures var first := req.header[ForwardedFor][0];
            var req' := Request(remoteAddr, req.header[ForwardedFor := [first] + rest]);
            Authorize(req, true) == Authorize(req', true)
  {
  }

  /** The test is on prefixes only: an address that merely begins with the
      loopback text is let through, and a loopback address in another
      spelling is not. */
  lemma PrefixOnly()
    ensures Authorize(Request("127.0.0.12:8080", map[]), false) == Allowed
    ensures Authorize(Request("127.0.0.1.example.org", map[]), false) == Allowed
    ensures Authorize(Request("::1", map[]), false) == Allowed
    ensures Authorize(Request("::ffff:127.0.0.1", map[]), false) == Forbidden("::ffff:127.0.0.1")
  {
    assert HasPrefix("127.0.0.12:8080", LoopbackV4);
    assert HasPrefix("127.0.0.1.example.org", LoopbackV4);
    assert HasPrefix("::1", LoopbackV6);
    var mapped := "::ffff:127.0.0.1";
    assert mapped[..|LoopbackV4|][0] != LoopbackV4[0];
    assert mapped[..|LoopbackV6|][2] != LoopbackV6[2];
  }

  /** How an HTTP server spells the IPv6 loopback peer in `RemoteAddr`:
      host in brackets, then the port. */
  const BracketedLoopbackV6 := "[::1]"

  /** As written, a direct request from the IPv6 loopback address, whose
      `RemoteAddr` reads "[::1]:<port>", is refused: the text does not start
      with "::1". */
  lemma BracketedLoopbackRefused(port: string, header: map<string, seq<string>>)
    ensures var address := BracketedLoopbackV6 + ":" + port;
            Authorize(Request(address, header), false) == Forbidden(address)
  {
    var address := BracketedLoopbackV6 + ":" + port;
    assert address[0] == '[';
    PrefixStartsAlike(address, LoopbackV4);
    PrefixStartsAlike(address, LoopbackV6);
  }

  /** The loopback test with the bracketed IPv6 spelling admitted too. */
  predicate IsLocalHost(address: string)
  {
    IsLocal(address) || HasPrefix(address, BracketedLoopbackV6)
  }

  /** The decision with the bracketed IPv6 loopback spelling admitted:
      everything else as in `Authorize`. */
  function AuthorizeLocalHost(req: Request, acceptProxy: bool): (r: Decision)
    ensures r.HeaderIndexPanic? <==> Authorize(req, acceptProxy).HeaderIndexPanic?
    ensures r.Allowed? <==>
              EffectiveAddress(req, acceptProxy).Some? &&
              exists t :: EffectiveAddress(req, acceptProxy).value in
                            {LoopbackV4 + t, LoopbackV6 + t, BracketedLoopbackV6 + t}
  {
    match EffectiveAddress(req, acceptProxy)
    case None => HeaderIndexPanic
    case Some(address) =>
      HasPrefixIffConcat(address, LoopbackV4);
      HasPrefixIffConcat(address, LoopbackV6);
      HasPrefixIffConcat(address, BracketedLoopbackV6);
      if IsLocalHost(address) then Allowed else Forbidden(address)
  }

  /** The corrected decision admits direct requests from both loopback
      addresses in the form an HTTP server reports them, whatever the port. */
  lemma LocalHostAdmitsLoopbackPeers(port: string, header: map<string, seq<string>>)
    ensures AuthorizeLocalHost(Request(LoopbackV4 + ":" + port, header), false) == Allowed
    ensures AuthorizeLocalHost(Request(BracketedLoopbackV6 + ":" + port, header), false) == Allowed
  {
    assert (LoopbackV4 + ":" + port)[..|LoopbackV4|] == LoopbackV4;
    assert (BracketedLoopbackV6 + ":" + port)[..|BracketedLoopbackV6|] == BracketedLoopbackV6;
  }

  /** The correction changes nothing for addresses that do not start with a
      bracket. */
  lemma LocalHostAgreesOffBrackets(req: Request, acceptProxy: bool)
    requires var a := EffectiveAddress(req, acceptProxy); a.Some? ==> |a.value| == 0 || a.value[0] != '['
    ensures AuthorizeLocalHost(req, acceptProxy) == Authorize(req, acceptProxy)
  {
    var a := EffectiveAddress(req, acceptProxy);
    if a.Some? {
      PrefixStartsAlike(a.value, BracketedLoopbackV6);
    }
  }
}

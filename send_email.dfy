/** The outbound-email endpoint of `app/api/send-email/route.ts`: the client
    address used as the rate-limit key, the deletion-only content sanitizer,
    the email-address check, and the ordered series of early returns of
    `POST`. The rate limiter, the request body parser's failure and the mail
    provider are inputs; the limiter's sliding window is not modelled. */
module SendEmailRoute {
  import opened Wrappers
  import opened Text

  // ----- client address -----------------------------------------------------

  /** `s.split(',')[0]`: everything before the first comma. */
  function FirstField(s: string): (r: string)
    ensures r <= s && ',' !in r
    ensures |r| < |s| ==> s[|r|] == ','
  {
    if s == [] || s[0] == ',' then [] else [s[0]] + FirstField(s[1..])
  }

  /** `headers.get(name)` answers a value that JavaScript treats as true. */
  predicate HasValue(headers: map<string, string>, name: string)
  {
    name in headers && headers[name] != ""
  }

  /** `getClientIp`: the trimmed first entry of a non-empty
      `x-forwarded-for`, else a non-empty `x-real-ip`, else "unknown".
      Header names are held lower-case, as the framework looks them up
      without regard to case. */
  function GetClientIp(headers: map<string, string>): (ip: string)
    ensures HasValue(headers, "x-forwarded-for") ==>
              ip == Trim(FirstField(headers["x-forwarded-for"])) && ',' !in ip
    ensures !HasValue(headers, "x-forwarded-for") && HasValue(headers, "x-real-ip") ==>
              ip == headers["x-real-ip"]
    ensures !HasValue(headers, "x-forwarded-for") && !HasValue(headers, "x-real-ip") ==>
              ip == "unknown"
  {
    if HasValue(headers, "x-forwarded-for") then
      var first := FirstField(headers["x-forwarded-for"]);
      var ip := Trim(first);
      assert forall c :: c in ip ==> c in first;
      ip
    else if HasValue(headers, "x-real-ip") then headers["x-real-ip"]
    else "unknown"
  }

  /** A forwarded-for header that starts with a comma yields the empty
      address rather than "unknown": all such clients share one key. */
  lemma {:induction false} LeadingCommaGivesEmptyAddress()
    ensures GetClientIp(map["x-forwarded-for" := ", 10.0.0.1"]) == ""
  {
    assert FirstField(", 10.0.0.1") == "";
  }

  // ----- content sanitizer --------------------------------------------------

  /** The four patterns `sanitizeInput` deletes, in the order it applies
      them, all case-insensitive: `<script[^>]*>.*?<\/script>`,
      `<iframe[^>]*>.*?<\/iframe>`, `javascript:` and `on\w+\s*=`. */
  datatype Pattern = ScriptTag | IframeTag | JavascriptScheme | EventHandler

  /** `s` starts with the lower-case ASCII text `lit`, ignoring case. */
  predicate StartsWithIgnoringCase(s: string, lit: string)
  {
    |lit| <= |s| && ToLower(s[..|lit|]) == lit
  }

  /** The first index at or after `from` holding `c`. */
  function IndexOf(s: string, c: char, from: nat): (r: Option<nat>)
    requires from <= |s|
    ensures r.Some? ==> from <= r.value < |s| && s[r.value] == c
    ensures r.Some? ==> forall k :: from <= k < r.value ==> s[k] != c
    decreases |s| - from
  {
    if from == |s| then None
    else if s[from] == c then Some(from)
    else IndexOf(s, c, from + 1)
  }

  /** The lazy `.*?` followed by `close`: the first index at or after
      `from` where `close` starts, with no line terminator before it. */
  function LazyUntil(s: string, from: nat, close: string): (r: Option<nat>)
    requires from <= |s|
    ensures r.Some? ==> from <= r.value <= |s| && StartsWithIgnoringCase(s[r.value..], close)
    decreases |s| - from
  {
    if StartsWithIgnoringCase(s[from..], close) then Some(from)
    else if from == |s| || IsLineTerminator(s[from]) then None
    else LazyUntil(s, from + 1, close)
  }

  /** The length of the longest prefix of `s` whose characters satisfy `p`. */
  function RunLength(s: string, p: char -> bool): (n: nat)
    ensures n <= |s|
    ensures forall k :: 0 <= k < n ==> p(s[k])
    ensures n < |s| ==> !p(s[n])
  {
    if s != [] && p(s[0]) then 1 + RunLength(s[1..], p) else 0
  }

  /** `<tag[^>]*>.*?</tag>` at the start of `s`: `[^>]*>` can only end at
      the first '>', and the lazy body ends at the first closing tag. */
  function TagMatch(s: string, open: string, close: string): (n: nat)
    requires open != [] && open[0] == '<'
    ensures n == 0 || (|open| < n <= |s| && s[0] == '<')
  {
    if !StartsWithIgnoringCase(s, open) then 0
    else
      assert Lower(s[0]) == '<';
      match IndexOf(s, '>', |open|)
      case None => 0
      case Some(gt) =>
        match LazyUntil(s, gt + 1, close)
        case None => 0
        case Some(k) => k + |close|
  }

  /** `on\w+\s*=` at the start of `s`: the word run and the white-space run
      are taken whole, because neither can be followed by what the other
      needs. */
  function HandlerMatch(s: string): (n: nat)
    ensures n == 0 || (3 < n <= |s| && s[n - 1] == '=')
  {
    if !StartsWithIgnoringCase(s, "on") then 0
    else
      var w := 2 + RunLength(s[2..], IsWordChar);
      if w == 2 then 0
      else
        var e := w + RunLength(s[w..], IsSpace);
        if e < |s| && s[e] == '=' then e + 1 else 0
  }

  /** The character every match of a pattern contains. */
  function Marker(p: Pattern): char
  {
    match p
    case ScriptTag => '<'
    case IframeTag => '<'
    case JavascriptScheme => ':'
    case EventHandler => '='
  }

  /** The length of the match of `p` at the start of `s`, 0 when there is
      none. Every match is non-empty and holds the pattern's marker. */
  function MatchLength(p: Pattern, s: string): (n: nat)
    ensures n <= |s|
    ensures n > 0 ==> Marker(p) in s[..n]
  {
    match p
    case ScriptTag =>
      var n := TagMatch(s, "<script", "</script>");
      assert n > 0 ==> s[..n][0] == '<';
      n
    case IframeTag =>
      var n := TagMatch(s, "<iframe", "</iframe>");
      assert n > 0 ==> s[..n][0] == '<';
      n
    case JavascriptScheme =>
      if StartsWithIgnoringCase(s, "javascript:") then
        assert Lower(s[10]) == ':';
        assert s[..11][10] == ':';
        11
      else 0
    case EventHandler =>
      var n := HandlerMatch(s);
      assert n > 0 ==> s[..n][n - 1] == '=';
      n
  }

  lemma {:induction false} SubsequenceOfSuffix<T>(a: seq<T>, b: seq<T>, k: nat)
    requires k <= |b| && IsSubsequence(a, b[k..])
    ensures IsSubsequence(a, b)
    decreases k
  {
    if k > 0 {
      assert b[k..] == b[1..][k - 1..];
      SubsequenceOfSuffix(a, b[1..], k - 1);
    }
  }

  /** `s.replace(re, '')` with the global flag: scanning left to right,
      each match is deleted and the scan resumes after it; a position with
      no match keeps its character. The result only ever loses characters. */
  function ReplaceAll(s: string, p: Pattern): (r: string)
    ensures IsSubsequence(r, s)
    decreases |s|
  {
    if s == [] then []
    else
      var n := MatchLength(p, s);
      if n > 0 then
        var r := ReplaceAll(s[n..], p);
        SubsequenceOfSuffix(r, s, n);
        r
      else
        var rest := ReplaceAll(s[1..], p);
        [s[0]] + rest
  }

  /** Text without the pattern's marker has nothing to delete. */
  lemma {:induction false} ReplaceAllKeepsMarkerFree(s: string, p: Pattern)
    requires Marker(p) !in s
    ensures ReplaceAll(s, p) == s
  {
    if s != [] {
      if MatchLength(p, s) > 0 {
        assert false;
      }
      ReplaceAllKeepsMarkerFree(s[1..], p);
    }
  }

  /** `sanitizeInput`: the four global replacements, in order. */
  function SanitizeInput(input: string): string
  {
    ReplaceAll(ReplaceAll(ReplaceAll(ReplaceAll(input, ScriptTag), IframeTag), JavascriptScheme), EventHandler)
  }

  /** The sanitizer only deletes text: its output is a subsequence of its
      input and no longer than it. */
  lemma {:induction false} SanitizeInputDeletesOnly(input: string)
    ensures IsSubsequence(SanitizeInput(input), input)
    ensures |SanitizeInput(input)| <= |input|
  {
    var a := ReplaceAll(input, ScriptTag);
    var b := ReplaceAll(a, IframeTag);
    var c := ReplaceAll(b, JavascriptScheme);
    var d := ReplaceAll(c, EventHandler);
    SubsequenceTransitive(c, b, a);
    SubsequenceTransitive(c, a, input);
    SubsequenceTransitive(d, c, input);
    SubsequenceLength(d, input);
  }

  /** Text with none of '<', ':' and '=' passes through unchanged. */
  lemma {:induction false} SanitizeInputKeepsPlainText(input: string)
    requires '<' !in input && ':' !in input && '=' !in input
    ensures SanitizeInput(input) == input
  {
    ReplaceAllKeepsMarkerFree(input, ScriptTag);
    ReplaceAllKeepsMarkerFree(input, IframeTag);
    ReplaceAllKeepsMarkerFree(input, JavascriptScheme);
    ReplaceAllKeepsMarkerFree(input, EventHandler);
  }

  // ----- email address check ------------------------------------------------

  /** A run matched by `[^\s@]+`. */
  predicate IsAtom(t: string)
  {
    t != [] && forall i :: 0 <= i < |t| ==> !IsSpace(t[i]) && t[i] != '@'
  }

  /** The regular expression `^[^\s@]+@[^\s@]+\.[^\s@]+$` read as a
      grammar: three atoms joined by '@' and '.'. */
  ghost predicate EmailShape(s: string)
  {
    exists i, j :: 0 < i < j < |s| - 1 && s[i] == '@' && s[j] == '.'
      && IsAtom(s[..i]) && IsAtom(s[i + 1..j]) && IsAtom(s[j + 1..])
  }

  /** `isValidEmail`, computed by locating the '@'. */
  function IsValidEmail(s: string): bool
  {
    match IndexOf(s, '@', 0)
    case None => false
    case Some(at) =>
      var domain := s[at + 1..];
      && at > 0 && IsAtom(s[..at]) && IsAtom(domain)
      && exists j :: 0 < j < |domain| - 1 && domain[j] == '.'
  }

  lemma {:induction false} AtomSplit(t: string, j: nat)
    requires 0 < j < |t| - 1 && t[j] == '.' && IsAtom(t)
    ensures IsAtom(t[..j]) && IsAtom(t[j + 1..])
  {
  }

  lemma {:induction false} IndexOfFinds(s: string, c: char, from: nat, i: nat)
    requires from <= i < |s| && s[i] == c
    requires forall k :: from <= k < i ==> s[k] != c
    ensures IndexOf(s, c, from) == Some(i)
    decreases i - from
  {
    if from < i {
      IndexOfFinds(s, c, from + 1, i);
    }
  }

  lemma {:induction false} AtomJoin(x: string, y: string)
    requires IsAtom(x) && IsAtom(y)
    ensures IsAtom(x + ['.'] + y)
  {
    var t := x + ['.'] + y;
    forall k | 0 <= k < |t| ensures !IsSpace(t[k]) && t[k] != '@' {
      if k < |x| {
        assert t[k] == x[k];
      } else if k > |x| {
        assert t[k] == y[k - |x| - 1];
      }
    }
  }

  /** The positions of the '@' and of a '.' that split a valid address
      into the three atoms of the pattern. */
  lemma {:induction false} ValidEmailParts(s: string) returns (i: nat, j: nat)
    requires IsValidEmail(s)
    ensures 0 < i < j < |s| - 1 && s[i] == '@' && s[j] == '.'
    ensures IsAtom(s[..i]) && IsAtom(s[i + 1..j]) && IsAtom(s[j + 1..])
  {
    var at := IndexOf(s, '@', 0).value;
    var domain := s[at + 1..];
    var dot :| 0 < dot < |domain| - 1 && domain[dot] == '.';
    AtomSplit(domain, dot);
    assert s[at + 1..at + 1 + dot] == domain[..dot];
    assert s[at + 1 + dot + 1..] == domain[dot + 1..];
    i, j := at, at + 1 + dot;
  }

  lemma {:induction false} ValidEmailHasShape(s: string)
    requires IsValidEmail(s)
    ensures EmailShape(s)
  {
    var i, j := ValidEmailParts(s);
  }

  lemma {:induction false} ShapeIsValidEmail(s: string, i: nat, j: nat)
    requires 0 < i < j < |s| - 1 && s[i] == '@' && s[j] == '.'
    requires IsAtom(s[..i]) && IsAtom(s[i + 1..j]) && IsAtom(s[j + 1..])
    ensures IsValidEmail(s)
  {
    forall k | 0 <= k < i ensures s[k] != '@' {
      assert s[k] == s[..i][k];
    }
    IndexOfFinds(s, '@', 0, i);
    var domain := s[i + 1..];
    assert domain == s[i + 1..j] + ['.'] + s[j + 1..];
    AtomJoin(s[i + 1..j], s[j + 1..]);
    assert IsAtom(domain);
    assert domain[j - i - 1] == '.';
    assert 0 < j - i - 1 < |domain| - 1;
  }

  /** The check accepts exactly the strings the regular expression
      matches: no white space, exactly one '@' with text before it, and a
      '.' after it with text on both sides. */
  lemma {:induction false} IsValidEmailMatchesRegex(s: string)
    ensures IsValidEmail(s) <==> EmailShape(s)
  {
    if IsValidEmail(s) {
      ValidEmailHasShape(s);
    }
    if EmailShape(s) {
      var i, j :| 0 < i < j < |s| - 1 && s[i] == '@' && s[j] == '.'
        && IsAtom(s[..i]) && IsAtom(s[i + 1..j]) && IsAtom(s[j + 1..]);
      ShapeIsValidEmail(s, i, j);
    }
  }

  // ----- the endpoint -------------------------------------------------------

  /** The limiter's answer for one key. */
  datatype LimitResult = LimitResult(success: bool, limit: nat, remaining: nat, reset: nat)

  /** The JSON body fields the endpoint reads; `None` for missing or null. */
  datatype Body = Body(to: Option<string>, subject: Option<string>, html: Option<string>, apiKey: Option<string>)

  /** A request: its headers (names lower-case) and its body, `None` when
      the body is not JSON and `request.json()` throws. */
  datatype EmailRequest = EmailRequest(headers: map<string, string>, body: Option<Body>)

  /** The environment: `EMAIL_API_SECRET` and `RESEND_API_KEY`. */
  datatype Config = Config(emailSecret: Option<string>, resendKey: Option<string>)

  /** The message handed to the mail provider. */
  datatype Outgoing = Outgoing(to: string, subject: string, html: string)

  /** The mail provider's reply: `response.ok`, `response.status` and the
      id in its JSON. */
  datatype ProviderReply = ProviderReply(ok: bool, status: int, id: string)

  datatype Problem = MissingFields | InvalidAddress | ContentTooLarge

  datatype Response =
    | TooManyRequests(limit: nat, remaining: nat, reset: nat)
    | BadRequest(problem: Problem)
    | InvalidApiKey
    | NotConfigured
    | ProviderFailed(status: int)
    | Sent(messageId: string, remaining: nat)
    | InternalError

  /** The HTTP status of each response. */
  function Status(r: Response): int
  {
    match r
    case TooManyRequests(_, _, _) => 429
    case BadRequest(_) => 400
    case InvalidApiKey => 401
    case NotConfigured => 500
    case ProviderFailed(status) => status
    case Sent(_, _) => 200
    case InternalError => 500
  }

  /** The `X-RateLimit-*` headers: on a 429 the limiter's three numbers as
      plain decimal text (the reset time raw, not as a date), on success
      the remaining count. */
  function Headers(r: Response): map<string, string>
  {
    match r
    case TooManyRequests(limit, remaining, reset) =>
      map["X-RateLimit-Limit" := NatToString(limit),
          "X-RateLimit-Remaining" := NatToString(remaining),
          "X-RateLimit-Reset" := NatToString(reset)]
    case Sent(_, remaining) => map["X-RateLimit-Remaining" := NatToString(remaining)]
    case _ => map[]
  }

  /** A JSON field JavaScript treats as true: present and non-empty. */
  predicate Truthy(field: Option<string>)
  {
    field.Some? && field.value != ""
  }

  const MaxHtmlLength: nat := 50000

  /** `POST`: consult the limiter with the client address, then parse the
      body and run the checks in their fixed order; the first failing check
      decides the response. Exceptions anywhere end in a 500. */
  function Post(req: EmailRequest, limiter: string -> Call<LimitResult>, config: Config,
                provider: Outgoing -> Call<ProviderReply>): (r: Response)
    // a limiter that throws ends in a 500, and a mail goes out only when the
    // limiter admitted the request, whose remaining count the answer carries
    ensures limiter(GetClientIp(req.headers)).Threw? ==> r == InternalError
    ensures r.Sent? ==>
              && limiter(GetClientIp(req.headers)).Returned? && limiter(GetClientIp(req.headers)).value.success
              && r.remaining == limiter(GetClientIp(req.headers)).value.remaining
    ensures r.Sent? ==>
              && req.body.Some? && Truthy(req.body.value.to) && Truthy(req.body.value.subject)
              && Truthy(req.body.value.html)
              && IsValidEmail(req.body.value.to.value)
              && (Truthy(req.body.value.apiKey) ==> config.emailSecret == req.body.value.apiKey)
              && |SanitizeInput(req.body.value.html.value)| <= MaxHtmlLength
              && Truthy(config.resendKey)
    // the mail handed over is the address with the sanitised subject and html,
    // and the answer carries the provider's id
    ensures r.Sent? ==>
              var mail := Outgoing(req.body.value.to.value, SanitizeInput(req.body.value.subject.value),
                                   SanitizeInput(req.body.value.html.value));
              provider(mail).Returned? && provider(mail).value.ok && r.messageId == provider(mail).value.id
  {
    match limiter(GetClientIp(req.headers))
    case Threw => InternalError
    case Returned(limit) =>
      if !limit.success then TooManyRequests(limit.limit, limit.remaining, limit.reset)
      else
        match req.body
        case None => InternalError
        case Some(body) =>
          if !Truthy(body.to) || !Truthy(body.subject) || !Truthy(body.html) then BadRequest(MissingFields)
          else if !IsValidEmail(body.to.value) then BadRequest(InvalidAddress)
          else if Truthy(body.apiKey) && body.apiKey != config.emailSecret then InvalidApiKey
          else
            var subject := SanitizeInput(body.subject.value);
            var html := SanitizeInput(body.html.value);
            if |html| > MaxHtmlLength then BadRequest(ContentTooLarge)
            else if !Truthy(config.resendKey) then NotConfigured
            else
              match provider(Outgoing(body.to.value, subject, html))
              case Threw => InternalError
              case Returned(reply) =>
                if !reply.ok then ProviderFailed(reply.status)
                else Sent(reply.id, limit.remaining)
  }

  /** The limiter is consulted before the body is read: a refusal answers
      429 with the limiter's numbers, whatever the body, the configuration
      or the provider, and the reset time reads back from its header. */
  lemma {:induction false} RateLimitComesFirst(req: EmailRequest, limiter: string -> Call<LimitResult>,
                                               config: Config, provider: Outgoing -> Call<ProviderReply>,
                                               limit: LimitResult)
    requires limiter(GetClientIp(req.headers)) == Returned(limit) && !limit.success
    ensures Post(req, limiter, config, provider) == TooManyRequests(limit.limit, limit.remaining, limit.reset)
    ensures Status(Post(req, limiter, config, provider)) == 429
    ensures ParseInt(Headers(Post(req, limiter, config, provider))["X-RateLimit-Reset"]) == Some(limit.reset)
    ensures ParseInt(Headers(Post(req, limiter, config, provider))["X-RateLimit-Remaining"]) == Some(limit.remaining)
  {
    assert Post(req, limiter, config, provider) == TooManyRequests(limit.limit, limit.remaining, limit.reset);
    RefusalHeadersReadBack(limit.limit, limit.remaining, limit.reset);
  }

  /** The headers of a 429 carry the limiter's numbers as text that reads
      back as those numbers. */
  lemma {:induction false} RefusalHeadersReadBack(limit: nat, remaining: nat, reset: nat)
    ensures ParseInt(Headers(TooManyRequests(limit, remaining, reset))["X-RateLimit-Reset"]) == Some(reset)
    ensures ParseInt(Headers(TooManyRequests(limit, remaining, reset))["X-RateLimit-Remaining"]) == Some(remaining)
  {
    ParseIntNatToString(reset, "");
    ParseIntNatToString(remaining, "");
    assert NatToString(reset) + "" == NatToString(reset);
    assert NatToString(remaining) + "" == NatToString(remaining);
  }

  /** Once the limiter admits the request, the checks run in their fixed
      order and the first failure decides: missing field, then bad
      address, then wrong key, then size, then configuration. */
  lemma {:induction false} ChecksInOrder(req: EmailRequest, limiter: string -> Call<LimitResult>,
                                         config: Config, provider: Outgoing -> Call<ProviderReply>,
                                         limit: LimitResult, body: Body)
    requires limiter(GetClientIp(req.headers)) == Returned(limit) && limit.success
    requires req.body == Some(body)
    ensures var r := Post(req, limiter, config, provider);
      && (r == BadRequest(MissingFields) <==> !(Truthy(body.to) && Truthy(body.subject) && Truthy(body.html)))
      && (r == BadRequest(InvalidAddress) <==>
            Truthy(body.to) && Truthy(body.subject) && Truthy(body.html) && !IsValidEmail(body.to.value))
      && (r == InvalidApiKey <==>
            Truthy(body.to) && Truthy(body.subject) && Truthy(body.html) && IsValidEmail(body.to.value)
            && Truthy(body.apiKey) && body.apiKey != config.emailSecret)
      && (r == BadRequest(ContentTooLarge) <==>
            Truthy(body.to) && Truthy(body.subject) && Truthy(body.html) && IsValidEmail(body.to.value)
            && !(Truthy(body.apiKey) && body.apiKey != config.emailSecret)
            && |SanitizeInput(body.html.value)| > MaxHtmlLength)
      && (r == NotConfigured <==>
            Truthy(body.to) && Truthy(body.subject) && Truthy(body.html) && IsValidEmail(body.to.value)
            && !(Truthy(body.apiKey) && body.apiKey != config.emailSecret)
            && |SanitizeInput(body.html.value)| <= MaxHtmlLength && !Truthy(config.resendKey))
  {
    var r := Post(req, limiter, config, provider);
    if !(Truthy(body.to) && Truthy(body.subject) && Truthy(body.html)) {
      assert r == BadRequest(MissingFields);
    } else if !IsValidEmail(body.to.value) {
      assert r == BadRequest(InvalidAddress);
    } else if Truthy(body.apiKey) && body.apiKey != config.emailSecret {
      assert r == InvalidApiKey;
    } else if |SanitizeInput(body.html.value)| > MaxHtmlLength {
      assert r == BadRequest(ContentTooLarge);
    } else if !Truthy(config.resendKey) {
      assert r == NotConfigured;
    } else {
      assert r.Sent? || r.ProviderFailed? || r == InternalError;
    }
  }

  /** Once every check passes, the provider is handed the address and the
      sanitised subject and html, and its answer decides: a throw is a 500,
      a reply that is not ok passes its status on, an ok reply answers with
      the provider's id and the limiter's remaining count. */
  lemma {:induction false} DeliversSanitizedMail(req: EmailRequest, limiter: string -> Call<LimitResult>,
                                                 config: Config, provider: Outgoing -> Call<ProviderReply>,
                                                 limit: LimitResult, body: Body)
    requires limiter(GetClientIp(req.headers)) == Returned(limit) && limit.success
    requires req.body == Some(body)
    requires Truthy(body.to) && Truthy(body.subject) && Truthy(body.html) && IsValidEmail(body.to.value)
    requires !(Truthy(body.apiKey) && body.apiKey != config.emailSecret)
    requires |SanitizeInput(body.html.value)| <= MaxHtmlLength && Truthy(config.resendKey)
    ensures var mail := Outgoing(body.to.value, SanitizeInput(body.subject.value), SanitizeInput(body.html.value));
      && (provider(mail).Threw? ==> Post(req, limiter, config, provider) == InternalError)
      && (provider(mail).Returned? && !provider(mail).value.ok ==>
            Post(req, limiter, config, provider) == ProviderFailed(provider(mail).value.status))
      && (provider(mail).Returned? && provider(mail).value.ok ==>
            Post(req, limiter, config, provider) == Sent(provider(mail).value.id, limit.remaining))
  {
    var mail := Outgoing(body.to.value, SanitizeInput(body.subject.value), SanitizeInput(body.html.value));
    var r := Post(req, limiter, config, provider);
    match provider(mail)
    case Threw => assert r == InternalError;
    case Returned(reply) =>
      if reply.ok {
        assert r == Sent(reply.id, limit.remaining);
      } else {
        assert r == ProviderFailed(reply.status);
      }
  }

  /** A request without an API key passes the key check: only a key that
      is present and differs from the secret is refused. */
  lemma {:induction false} AbsentKeyPasses(req: EmailRequest, limiter: string -> Call<LimitResult>,
                                           config: Config, provider: Outgoing -> Call<ProviderReply>)
    requires req.body.Some? && !Truthy(req.body.value.apiKey)
    ensures Post(req, limiter, config, provider) != InvalidApiKey
  {
  }

  /** The size limit applies to the sanitized html: html of at most 50000
      characters is never too large, and a refusal for size means the raw
      html was longer still. */
  lemma {:induction false} SizeLimitOnSanitizedHtml(req: EmailRequest, limiter: string -> Call<LimitResult>,
                                                    config: Config, provider: Outgoing -> Call<ProviderReply>)
    requires req.body.Some? && req.body.value.html.Some?
    ensures |req.body.value.html.value| <= MaxHtmlLength ==>
              Post(req, limiter, config, provider) != BadRequest(ContentTooLarge)
    ensures Post(req, limiter, config, provider) == BadRequest(ContentTooLarge) ==>
              |req.body.value.html.value| > MaxHtmlLength
  {
    SanitizeInputDeletesOnly(req.body.value.html.value);
  }
}

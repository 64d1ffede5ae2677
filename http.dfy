/** The request and response shapes of the web framework that the two
    request interceptors see, and the route filter (`config.matcher`) both of
    them declare, which decides which requests reach an interceptor at all. */
module Http {
  import opened Text

  /** The parts of a request URL the interceptors touch. */
  datatype Url = Url(origin: string, pathname: string, search: string, hash: string)

  /** An incoming request: its URL and its cookies by name. */
  datatype Request = Request(url: Url, cookies: map<string, string>)

  /** What an interceptor answers: let the request through unchanged, or
      redirect the browser to another URL. */
  datatype Decision = Next | Redirect(location: Url)

  /** The holding page every denied request is sent to. */
  const ComingSoon: string := "/coming-soon"

  const ImageExtensions: seq<string> := [".png", ".jpg", ".jpeg", ".gif", ".svg"]

  predicate EndsWith(s: string, suffix: string)
  {
    |suffix| <= |s| && s[|s| - |suffix|..] == suffix
  }

  predicate NoLineTerminator(s: string)
  {
    forall i :: 0 <= i < |s| ==> !IsLineTerminator(s[i])
  }

  /** The alternatives of the negative lookahead, tried on the pathname
      without its leading "/" (a tail free of line terminators, so every
      regular-expression `.` in them matches any character). */
  predicate ExcludedTail(tail: string)
  {
    || "_next/static" <= tail
    || "_next/image" <= tail
    || (|tail| >= 11 && tail[..7] == "favicon" && tail[8..11] == "ico")
    || (exists ext :: ext in ImageExtensions && EndsWith(tail, ext))
  }

  /** The route filter `/((?!_next/static|_next/image|favicon.ico|.*\.png$|
      .*\.jpg$|.*\.jpeg$|.*\.gif$|.*\.svg$).*)`, matched against the whole
      pathname: a leading "/", then a tail that the lookahead does not
      exclude and that `.*` consumes entirely. */
  predicate Matched(pathname: string)
  {
    pathname != [] && pathname[0] == '/'
    && NoLineTerminator(pathname[1..])
    && !ExcludedTail(pathname[1..])
  }

  /** Framework assets and the favicon never reach an interceptor. */
  lemma {:induction false} AssetsNotMatched()
    ensures !Matched("/_next/static/chunks/main.js")
    ensures !Matched("/_next/image")
    ensures !Matched("/favicon.ico")
  {
    var favicon := "/favicon.ico"[1..];
    assert favicon[..7] == "favicon" && favicon[8..11] == "ico";
    var image := "/_next/image"[1..];
    assert image[..11] == "_next/image";
    var chunk := "/_next/static/chunks/main.js"[1..];
    assert chunk[..12] == "_next/static";
  }

  /** Nor do image files, wherever they sit. */
  lemma {:induction false} ImagesNotMatched()
    ensures !Matched("/images/logo.png")
    ensures !Matched("/hero.jpeg")
  {
    assert "/images/logo.png"[1..] == "images/logo.png";
    assert EndsWith("images/logo.png", ImageExtensions[0]);
    assert "/hero.jpeg"[1..] == "hero.jpeg";
    assert EndsWith("hero.jpeg", ImageExtensions[2]);
  }

  /** Every path ending in an image extension is outside the filter, and
      so is everything under `/_next/static` and `/_next/image`. */
  lemma {:induction false} ImagePathsNotMatched(pathname: string, ext: string)
    requires ext in ImageExtensions && EndsWith(pathname, ext)
    ensures !Matched(pathname)
  {
    if pathname != [] && pathname[0] == '/' {
      var tail := pathname[1..];
      assert ext[0] == '.';
      assert pathname[|pathname| - |ext|] == '.';
      assert tail[|tail| - |ext|..] == pathname[|pathname| - |ext|..];
      assert EndsWith(tail, ext);
    }
  }

  lemma {:induction false} AssetTreesNotMatched(pathname: string)
    requires "/_next/static" <= pathname || "/_next/image" <= pathname
    ensures !Matched(pathname)
  {
    var tail := pathname[1..];
    if "/_next/static" <= pathname {
      assert tail[..12] == "/_next/static"[1..];
    } else {
      assert tail[..11] == "/_next/image"[1..];
    }
  }

  /** An ordinary page path, and the root, do reach them. */
  lemma {:induction false} PagesMatched()
    ensures Matched("/needs")
    ensures Matched("/")
  {
    var tail := "/needs"[1..];
    assert tail == "needs";
    forall ext | ext in ImageExtensions ensures !EndsWith(tail, ext) {
      assert tail[|tail| - 4..] == "eeds";
    }
  }
}

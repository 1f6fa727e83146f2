/** The session key taken from a request's headers, and the cookie text it undoes. */
module SessionKey {
  import opened Machine

  const SESSION_COOKIE := "session_id"

  // ---- The text functions used ----

  function SplitOn(s: string, c: char): (r: seq<string>)
    ensures r != []
  {
    if s == "" then [""]
    else
      var rest := SplitOn(s[1..], c);
      if s[0] == c then [""] + rest else [[s[0]] + rest[0]] + rest[1..]
  }

  /** The blanks that header text can contain. */
  predicate IsBlank(c: char) {
    c == ' ' || c == '\t'
  }

  function TrimStart(s: string): string {
    if s != "" && IsBlank(s[0]) then TrimStart(s[1..]) else s
  }

  function TrimEnd(s: string): string {
    if s != "" && IsBlank(s[|s| - 1]) then TrimEnd(s[..|s| - 1]) else s
  }

  function Trim(s: string): string {
    TrimEnd(TrimStart(s))
  }

  /** The text before and after the first `c`. */
  function SplitOnce(s: string, c: char): Option<(string, string)> {
    if s == "" then None
    else if s[0] == c then Some(("", s[1..]))
    else match SplitOnce(s[1..], c)
      case None => None
      case Some((before, after)) => Some(([s[0]] + before, after))
  }

  // ---- The extractor ----

  function CookieValue(segment: string): Option<string> {
    match SplitOnce(Trim(segment), '=')
    case Some((name, value)) => if name == SESSION_COOKIE then Some(value) else None
    case None => None
  }

  function FindCookie(segments: seq<string>): Option<string> {
    if segments == [] then None
    else if CookieValue(segments[0]).Some? then CookieValue(segments[0])
    else FindCookie(segments[1..])
  }

  function SessionCookie(text: string): Option<string> {
    FindCookie(SplitOn(text, ';'))
  }

  type Headers = map<string, string>

  /** A header value is text only if all of it is printable ASCII or tabs. */
  function ToStr(value: string): Option<string> {
    if forall c | c in value :: ' ' <= c <= '~' || c == '\t' then Some(value) else None
  }

  function TextOf(headers: Headers, name: string): Option<string> {
    if name in headers then ToStr(headers[name]) else None
  }

  /** The session cookie, or else the client address a proxy has added; a present but unreadable one is not skipped. */
  function ExtractSessionKey(headers: Headers): Option<string> {
    var cookies := TextOf(headers, "cookie");
    var key := if cookies.Some? then SessionCookie(cookies.value) else None;
    if key.Some? then key
    else if "x-forwarded-for" in headers then TextOf(headers, "x-forwarded-for")
    else TextOf(headers, "x-real-ip")
  }

  // ---- What is extracted, from any text ----

  lemma {:induction false} SplitOnceMeaning(s: string, c: char, before: string, after: string)
    ensures SplitOnce(s, c) == Some((before, after)) <==> s == before + [c] + after && c !in before
  {
    if s != "" && s[0] != c {
      if before != "" {
        SplitOnceMeaning(s[1..], c, before[1..], after);
        assert before == [before[0]] + before[1..];
        if s == before + [c] + after {
          assert s[1..] == before[1..] + [c] + after;
        }
        if SplitOnce(s, c) == Some((before, after)) {
          assert s == [s[0]] + s[1..];
        }
      } else {
        assert (before + [c] + after)[0] == c;
      }
    } else if s != "" {
      if before != "" {
        assert (before + [c] + after)[0] == before[0];
      } else {
        assert [c] + after == s <==> after == s[1..];
      }
    }
  }

  /** A segment, blanks around it aside, gives the session cookie this value. */
  predicate Gives(segment: string, value: string) {
    Trim(segment) == SESSION_COOKIE + "=" + value
  }

  lemma CookieValueMeaning(segment: string, value: string)
    ensures CookieValue(segment) == Some(value) <==> Gives(segment, value)
  {
    SplitOnceMeaning(Trim(segment), '=', SESSION_COOKIE, value);
  }

  /** The key is the value of the first segment that gives one, whatever the text. */
  lemma {:induction false} FindCookieMeaning(segments: seq<string>, value: string)
    ensures FindCookie(segments) == Some(value) <==>
              exists k | 0 <= k < |segments| ::
                Gives(segments[k], value) && forall j, v | 0 <= j < k :: !Gives(segments[j], v)
  {
    if segments != [] {
      var rest := segments[1..];
      FindCookieMeaning(rest, value);
      CookieValueMeaning(segments[0], value);
      if CookieValue(segments[0]).Some? {
        CookieValueMeaning(segments[0], CookieValue(segments[0]).value);
        assert FindCookie(segments) == Some(value) ==> Gives(segments[0], value);
      } else {
        forall v ensures !Gives(segments[0], v) {
          CookieValueMeaning(segments[0], v);
        }
        assert forall k | 0 <= k < |rest| :: rest[k] == segments[k + 1];
        if k :| 0 <= k < |rest| && Gives(rest[k], value) && forall j, v | 0 <= j < k :: !Gives(rest[j], v) {
          assert Gives(segments[k + 1], value);
          forall j, v | 0 <= j < k + 1 ensures !Gives(segments[j], v) {
            assert j > 0 ==> segments[j] == rest[j - 1];
          }
        }
        if k :| 0 <= k < |segments| && Gives(segments[k], value) && forall j, v | 0 <= j < k :: !Gives(segments[j], v) {
          assert Gives(rest[k - 1], value);
        }
      }
    }
  }

  /** The segments joined by the separator. */
  function Join(segments: seq<string>, c: char): string {
    if segments == [] then "" else if |segments| == 1 then segments[0] else segments[0] + [c] + Join(segments[1..], c)
  }

  /** Splitting cuts at every separator and loses nothing else. */
  lemma {:induction false} SplitOnMeaning(s: string, c: char)
    ensures Join(SplitOn(s, c), c) == s
    ensures forall k | 0 <= k < |SplitOn(s, c)| :: c !in SplitOn(s, c)[k]
  {
    if s != "" {
      SplitOnMeaning(s[1..], c);
      var rest := SplitOn(s[1..], c);
      if s[0] == c {
        assert ([""] + rest)[1..] == rest;
      } else {
        var grown := [[s[0]] + rest[0]] + rest[1..];
        assert grown[1..] == rest[1..];
        assert s == [s[0]] + s[1..];
      }
    }
  }

  predicate AllBlank(s: string) {
    forall k | 0 <= k < |s| :: s[k] == ' ' || s[k] == '\t'
  }

  lemma {:induction false} TrimStartMeaning(s: string) returns (left: string)
    ensures s == left + TrimStart(s) && AllBlank(left)
    ensures TrimStart(s) != "" ==> TrimStart(s)[0] != ' ' && TrimStart(s)[0] != '\t'
  {
    if s != "" && IsBlank(s[0]) {
      var rest := TrimStartMeaning(s[1..]);
      left := [s[0]] + rest;
      assert s == [s[0]] + s[1..];
    } else {
      left := "";
    }
  }

  lemma {:induction false} TrimEndMeaning(s: string) returns (right: string)
    ensures s == TrimEnd(s) + right && AllBlank(right)
    ensures TrimEnd(s) != "" ==> TrimEnd(s)[0] == s[0]
    ensures TrimEnd(s) != "" ==> TrimEnd(s)[|TrimEnd(s)| - 1] != ' ' && TrimEnd(s)[|TrimEnd(s)| - 1] != '\t'
  {
    if s != "" && IsBlank(s[|s| - 1]) {
      var rest := TrimEndMeaning(s[..|s| - 1]);
      right := rest + [s[|s| - 1]];
      assert s == s[..|s| - 1] + [s[|s| - 1]];
    } else {
      right := "";
    }
  }

  /** Trimming takes away blanks and tabs at both ends, all of them and nothing else. */
  lemma TrimMeaning(s: string) returns (left: string, right: string)
    ensures s == left + Trim(s) + right && AllBlank(left) && AllBlank(right)
    ensures var t := Trim(s);
            t != "" ==> t[0] != ' ' && t[0] != '\t' && t[|t| - 1] != ' ' && t[|t| - 1] != '\t'
  {
    left := TrimStartMeaning(s);
    right := TrimEndMeaning(TrimStart(s));
  }

  /** The header is there, readable, and one of its segments gives the session cookie. */
  ghost predicate HasSessionCookie(headers: Headers) {
    && "cookie" in headers && Readable(headers["cookie"])
    && exists k, v :: 0 <= k < |SplitOn(headers["cookie"], ';')| && Gives(SplitOn(headers["cookie"], ';')[k], v)
  }

  /** Printable ASCII and tabs only. */
  predicate Readable(value: string) {
    forall k | 0 <= k < |value| :: 32 <= value[k] as int <= 126 || value[k] as int == 9
  }

  /**
   * The order of the headers, for any request: the first session cookie; without one the text of x-forwarded-for if
   * that header is there, none if it is unreadable; without that header the text of x-real-ip.
   */
  lemma HeaderOrder(headers: Headers)
    ensures HasSessionCookie(headers) ==> ExtractSessionKey(headers) == FindCookie(SplitOn(headers["cookie"], ';'))
    ensures HasSessionCookie(headers) ==> ExtractSessionKey(headers).Some?
    ensures !HasSessionCookie(headers) && "x-forwarded-for" in headers ==>
              ExtractSessionKey(headers)
              == if Readable(headers["x-forwarded-for"]) then Some(headers["x-forwarded-for"]) else None
    ensures !HasSessionCookie(headers) && "x-forwarded-for" !in headers ==>
              ExtractSessionKey(headers)
              == if "x-real-ip" in headers && Readable(headers["x-real-ip"]) then Some(headers["x-real-ip"]) else None
  {
    ReadableIff(headers, "cookie");
    ReadableIff(headers, "x-forwarded-for");
    ReadableIff(headers, "x-real-ip");
    if "cookie" in headers {
      CookieFoundIff(SplitOn(headers["cookie"], ';'));
    }
  }

  lemma ReadableIff(headers: Headers, name: string)
    ensures TextOf(headers, name) == if name in headers && Readable(headers[name]) then Some(headers[name]) else None
  {
    if name in headers {
      var value := headers[name];
      if Readable(value) {
        forall c | c in value ensures ' ' <= c <= '~' || c == '\t' {
          var k :| 0 <= k < |value| && value[k] == c;
        }
      } else {
        var k :| 0 <= k < |value| && !(32 <= value[k] as int <= 126 || value[k] as int == 9);
        assert value[k] in value;
      }
    }
  }

  /** Some segment gives the cookie exactly when one is found. */
  lemma CookieFoundIff(segments: seq<string>)
    ensures FindCookie(segments).Some? <==> exists k, v :: 0 <= k < |segments| && Gives(segments[k], v)
  {
    if FindCookie(segments).Some? {
      FindCookieMeaning(segments, FindCookie(segments).value);
    }
    if k, v :| 0 <= k < |segments| && Gives(segments[k], v) {
      SomeCookieIsFound(segments, k, v);
    }
  }

  lemma {:induction false} SomeCookieIsFound(segments: seq<string>, k: nat, v: string)
    requires k < |segments| && Gives(segments[k], v)
    ensures FindCookie(segments).Some?
  {
    if k == 0 {
      CookieValueMeaning(segments[0], v);
    } else {
      assert segments[1..][k - 1] == segments[k];
      SomeCookieIsFound(segments[1..], k - 1, v);
    }
  }

  // ---- The round trip with a printer ----

  datatype Cookie = Cookie(name: string, value: string)

  predicate Unpadded(s: string) {
    s == "" || (!IsBlank(s[0]) && !IsBlank(s[|s| - 1]))
  }

  predicate Printable(c: Cookie) {
    && '=' !in c.name && ';' !in c.name && ';' !in c.value
    && Unpadded(c.name) && Unpadded(c.value)
  }

  function PrintCookie(c: Cookie): string {
    c.name + "=" + c.value
  }

  /** The cookie-string of section 4.2.1 of RFC 6265. */
  function PrintCookies(cs: seq<Cookie>): string {
    if cs == [] then ""
    else if |cs| == 1 then PrintCookie(cs[0])
    else PrintCookie(cs[0]) + "; " + PrintCookies(cs[1..])
  }

  /** The value of the first cookie of that name. */
  function FirstValue(cs: seq<Cookie>): (r: Option<string>)
    ensures r.None? <==> forall c | c in cs :: c.name != SESSION_COOKIE
  {
    if cs == [] then None else if cs[0].name == SESSION_COOKIE then Some(cs[0].value) else FirstValue(cs[1..])
  }

  lemma {:induction false} SplitFirst(a: string, rest: string, c: char)
    requires c !in a
    ensures SplitOn(a + [c] + rest, c) == [a] + SplitOn(rest, c)
  {
    var s := a + [c] + rest;
    if a == "" {
      assert s[1..] == rest;
    } else {
      assert s[1..] == a[1..] + [c] + rest;
      SplitFirst(a[1..], rest, c);
      assert ([a[1..]] + SplitOn(rest, c))[1..] == SplitOn(rest, c);
      assert [a[0]] + a[1..] == a;
    }
  }

  lemma {:induction false} SplitWhole(a: string, c: char)
    requires c !in a
    ensures SplitOn(a, c) == [a]
  {
    if a != "" {
      SplitWhole(a[1..], c);
      assert [a[0]] + a[1..] == a;
    }
  }

  lemma PrintedCookieIsRead(c: Cookie)
    requires Printable(c)
    ensures ';' !in PrintCookie(c)
    ensures CookieValue(PrintCookie(c)) == if c.name == SESSION_COOKIE then Some(c.value) else None
  {
    var s := PrintCookie(c);
    assert !IsBlank(s[0]) && !IsBlank(s[|s| - 1]);
    assert Trim(s) == s;
    assert s == c.name + ['='] + c.value;
    SplitOnceMeaning(s, '=', c.name, c.value);
  }

  /** A leading blank makes no difference. */
  lemma LeadingBlankIgnored(text: string)
    ensures SessionCookie(" " + text) == SessionCookie(text)
  {
    var segments := SplitOn(text, ';');
    assert (" " + text)[1..] == text;
    assert SplitOn(" " + text, ';') == [" " + segments[0]] + segments[1..];
    assert TrimStart(" " + segments[0]) == TrimStart(segments[0]) by {
      assert (" " + segments[0])[1..] == segments[0];
    }
    assert CookieValue(" " + segments[0]) == CookieValue(segments[0]);
    assert ([" " + segments[0]] + segments[1..])[1..] == segments[1..];
  }

  /** Printing cookies and extracting gives the first session cookie's value, also when values contain '='. */
  lemma {:induction false} PrintedCookiesRoundTrip(cs: seq<Cookie>)
    requires forall c | c in cs :: Printable(c)
    ensures SessionCookie(PrintCookies(cs)) == FirstValue(cs)
  {
    if cs == [] {
      assert SplitOn("", ';') == [""];
      assert CookieValue("") == None;
    } else {
      var first := PrintCookie(cs[0]);
      PrintedCookieIsRead(cs[0]);
      if |cs| == 1 {
        SplitWhole(first, ';');
        assert [first][1..] == [] && cs[1..] == [];
        assert FindCookie([first]) == CookieValue(first);
        assert FirstValue(cs) == if cs[0].name == SESSION_COOKIE then Some(cs[0].value) else None;
      } else {
        var rest := PrintCookies(cs[1..]);
        assert PrintCookies(cs) == first + [';'] + (" " + rest);
        SplitFirst(first, " " + rest, ';');
        LeadingBlankIgnored(rest);
        PrintedCookiesRoundTrip(cs[1..]);
        assert ([first] + SplitOn(" " + rest, ';'))[1..] == SplitOn(" " + rest, ';');
      }
    }
  }

  /** Spelled out for one cookie. */
  lemma SessionIdIsRead(value: string)
    requires ';' !in value && Unpadded(value)
    ensures SessionCookie("session_id=" + value) == Some(value)
  {
    var c := Cookie("session_id", value);
    PrintedCookiesRoundTrip([c]);
    assert PrintCookies([c]) == PrintCookie(c);
    assert PrintCookie(c) == "session_id=" + value by {
      assert "session_id" + "=" == "session_id=";
    }
  }

  /** In a request: the printed session cookie is the key, and without one the key falls back to the address headers. */
  lemma RequestRoundTrip(headers: Headers, cs: seq<Cookie>)
    requires forall c | c in cs :: Printable(c)
    requires "cookie" in headers && headers["cookie"] == PrintCookies(cs) && ToStr(PrintCookies(cs)).Some?
    ensures ExtractSessionKey(headers)
         == if FirstValue(cs).Some? then FirstValue(cs) else ExtractSessionKey(headers - {"cookie"})
  {
    PrintedCookiesRoundTrip(cs);
  }
}

/** The collection-link check of `parceArgs`.

    The source accepts a link when the anchored regular expression `reLink`
    matches it.  Here the language of that expression is written down as a
    grammar over `LinkParts` (`WellFormed` + `Render`), and the check itself is
    a hand-written character-level scanner `Check`.  The two are proved to agree
    on every string, in both directions. */
module Link {
  import opened Wrappers
  import Strings

  // ---------------------------------------------------------------------------
  // Character classes of the expression (RE2 syntax, Perl flags: a `-` right
  // after a range is a literal, `\\` inside a class is one backslash).
  // ---------------------------------------------------------------------------

  /** `[A-Za-z0-9-.]`: host characters when a port follows. */
  predicate IsHostChar(c: char) {
    'A' <= c <= 'Z' || 'a' <= c <= 'z' || '0' <= c <= '9' || c == '-' || c == '.'
  }

  /** `[a-z0-9-.]`: host characters when there is no port. */
  predicate IsLowerHostChar(c: char) {
    'a' <= c <= 'z' || '0' <= c <= '9' || c == '-' || c == '.'
  }

  /** `[a-z0-9-]`: the third authority alternative. */
  predicate IsLabelChar(c: char) {
    'a' <= c <= 'z' || '0' <= c <= '9' || c == '-'
  }

  /** `\d` (ASCII digits only in RE2). */
  predicate IsDigit(c: char) {
    '0' <= c <= '9'
  }

  /** `[\\._A-Za-z0-9\\-]`: backslash, dot, underscore, letters, digits, dash. */
  predicate IsCollectionChar(c: char) {
    c == '\\' || c == '.' || c == '_' || 'A' <= c <= 'Z' || 'a' <= c <= 'z' || '0' <= c <= '9' || c == '-'
  }

  /** `[class]+`: a non-empty string drawn from one class. */
  predicate OneOrMore(s: string, charClass: char -> bool) {
    |s| > 0 && forall i :: 0 <= i < |s| ==> charClass(s[i])
  }

  // ---------------------------------------------------------------------------
  // The language of the expression, as a grammar.
  // ---------------------------------------------------------------------------

  /** `[A-Za-z0-9-.]+:\d+` */
  ghost predicate HostWithPort(a: string) {
    exists i :: 0 <= i < |a| && a[i] == ':' && OneOrMore(a[..i], IsHostChar) && OneOrMore(a[i + 1..], IsDigit)
  }

  /** `(([A-Za-z0-9-.]+:\d+)|([a-z0-9-.]+))|([a-z0-9-]+)` */
  ghost predicate ValidAuthority(a: string) {
    HostWithPort(a) || OneOrMore(a, IsLowerHostChar) || OneOrMore(a, IsLabelChar)
  }

  /** The pieces a matching link is made of. */
  datatype LinkParts = LinkParts(secure: bool, authority: string, collection: string, trailingSlash: bool)

  function Scheme(secure: bool): string {
    if secure then "https" else "http"
  }

  /** `(https|http)://` authority `/solr/` collection, then at most one `/`. */
  function Render(p: LinkParts): string {
    Scheme(p.secure) + ("://" + (p.authority + ("/solr/" + (p.collection + Slash(p.trailingSlash)))))
  }

  ghost predicate WellFormed(p: LinkParts) {
    ValidAuthority(p.authority) && OneOrMore(p.collection, IsCollectionChar)
  }

  /** `s` is in the language of the anchored expression. */
  ghost predicate MatchesPattern(s: string) {
    exists p :: WellFormed(p) && Render(p) == s
  }

  // ---------------------------------------------------------------------------
  // The hand-written scanner.
  // ---------------------------------------------------------------------------

  /** Splits off `https://` or `http://`. */
  function StripScheme(s: string): Option<(bool, string)> {
    if |s| >= 8 && s[..8] == "https://" then Some((true, s[8..]))
    else if |s| >= 7 && s[..7] == "http://" then Some((false, s[7..]))
    else None
  }

  /** The authority alternatives, decided by the position of the first `:`. */
  function AuthorityOk(a: string): bool {
    match Strings.IndexOf(a, ':')
    case Some(i) => OneOrMore(a[..i], IsHostChar) && OneOrMore(a[i + 1..], IsDigit)
    case None => OneOrMore(a, IsLowerHostChar)
  }

  function Slash(present: bool): string {
    if present then "/" else ""
  }

  /** Scans `/solr/`, the collection name and an optional trailing `/`. */
  function CollectionPart(tail: string): Option<(string, bool)> {
    if |tail| < 6 || tail[..6] != "/solr/" then None
    else
      var name := tail[6..];
      var slash := |name| > 0 && name[|name| - 1] == '/';
      var collection := if slash then name[..|name| - 1] else name;
      if OneOrMore(collection, IsCollectionChar) then Some((collection, slash)) else None
  }

  /** Scans a link: the scheme, the authority up to the first `/`, then the
      collection part.  The parts it returns rebuild the link exactly. */
  function Check(s: string): (r: Option<LinkParts>)
    ensures r.Some? ==> Render(r.value) == s
  {
    var (secure, rest) :- StripScheme(s);
    var k :- Strings.IndexOf(rest, '/');
    if !AuthorityOk(rest[..k]) then None
    else
      var (collection, slash) :- CollectionPart(rest[k..]);
      CollectionPartSound(rest[k..]);
      CheckRender(s, secure, rest, k, "/solr/" + (collection + Slash(slash)));
      Some(LinkParts(secure, rest[..k], collection, slash))
  }

  /** The check `parceArgs` applies to the collection link. */
  predicate IsValidLink(s: string) {
    Check(s).Some?
  }

  // ---------------------------------------------------------------------------
  // The scanner decides exactly the language of the expression.
  // ---------------------------------------------------------------------------

  /** An authority holds no `/`, so the first `/` after the scheme ends it. */
  lemma AuthorityHasNoSlash(a: string)
    requires ValidAuthority(a)
    ensures '/' !in a
  {
    if HostWithPort(a) {
      var i :| 0 <= i < |a| && a[i] == ':' && OneOrMore(a[..i], IsHostChar) && OneOrMore(a[i + 1..], IsDigit);
      forall j | 0 <= j < |a|
        ensures a[j] != '/'
      {
        assert j < i ==> a[..i][j] == a[j];
        assert j > i ==> a[i + 1..][j - i - 1] == a[j];
      }
    }
  }

  /** The scanner's authority test is the three-way alternative of the expression. */
  lemma AuthorityOkIff(a: string)
    ensures AuthorityOk(a) <==> ValidAuthority(a)
  {
    if HostWithPort(a) {
      var j :| 0 <= j < |a| && a[j] == ':' && OneOrMore(a[..j], IsHostChar) && OneOrMore(a[j + 1..], IsDigit);
      assert forall k :: 0 <= k < j ==> a[..j][k] != ':';
      Strings.IndexOfFirst(a, ':', j);
    } else {
      match Strings.IndexOf(a, ':')
      case Some(i) =>
        assert !(OneOrMore(a[..i], IsHostChar) && OneOrMore(a[i + 1..], IsDigit));
        assert !IsLowerHostChar(a[i]) && !IsLabelChar(a[i]);
      case None =>
        assert forall k :: 0 <= k < |a| ==> IsLabelChar(a[k]) ==> IsLowerHostChar(a[k]);
    }
  }

  lemma StripSchemeRender(secure: bool, rest: string)
    ensures StripScheme(Scheme(secure) + ("://" + rest)) == Some((secure, rest))
  {
    var s := Scheme(secure) + ("://" + rest);
    if secure {
      assert s[..8] == "https://";
      assert s[8..] == rest;
    } else {
      assert s[4] == ':';
      assert s[..7] == "http://";
      assert s[7..] == rest;
    }
  }

  lemma StripSchemeSound(s: string)
    requires StripScheme(s).Some?
    ensures s == Scheme(StripScheme(s).value.0) + ("://" + StripScheme(s).value.1)
  {
    if |s| >= 8 && s[..8] == "https://" {
      assert s == s[..8] + s[8..];
    } else {
      assert s == s[..7] + s[7..];
    }
  }

  lemma CollectionPartRender(collection: string, slash: bool)
    requires OneOrMore(collection, IsCollectionChar)
    ensures CollectionPart("/solr/" + (collection + Slash(slash))) == Some((collection, slash))
  {
    var tail := "/solr/" + (collection + Slash(slash));
    var name := collection + Slash(slash);
    assert tail[..6] == "/solr/";
    assert tail[6..] == name;
    if slash {
      assert name[..|name| - 1] == collection;
    } else {
      assert name == collection;
      assert IsCollectionChar(collection[|collection| - 1]);
    }
  }

  lemma CollectionPartSound(tail: string)
    requires CollectionPart(tail).Some?
    ensures OneOrMore(CollectionPart(tail).value.0, IsCollectionChar)
    ensures tail == "/solr/" + (CollectionPart(tail).value.0 + Slash(CollectionPart(tail).value.1))
  {
    var name := tail[6..];
    assert tail == tail[..6] + name;
    if |name| > 0 && name[|name| - 1] == '/' {
      assert name == name[..|name| - 1] + "/";
    }
  }

  /** What an accepted link is made of: the scheme and the remainder, the
      authority up to the first `/` of the remainder, and the collection part. */
  lemma CheckParts(s: string) returns (secure: bool, rest: string, k: nat, collection: string, slash: bool)
    requires Check(s).Some?
    ensures StripScheme(s) == Some((secure, rest))
    ensures k <= |rest| && AuthorityOk(rest[..k])
    ensures CollectionPart(rest[k..]) == Some((collection, slash))
    ensures Check(s) == Some(LinkParts(secure, rest[..k], collection, slash))
  {
    secure, rest := StripScheme(s).value.0, StripScheme(s).value.1;
    k := Strings.IndexOf(rest, '/').value;
    collection, slash := CollectionPart(rest[k..]).value.0, CollectionPart(rest[k..]).value.1;
  }

  /** Everything the scanner accepts is in the language, and renders back to the input. */
  lemma CheckSound(s: string)
    requires Check(s).Some?
    ensures WellFormed(Check(s).value) && Render(Check(s).value) == s
  {
    var secure, rest, k, collection, slash := CheckParts(s);
    AuthorityOkIff(rest[..k]);
    CollectionPartSound(rest[k..]);
    CheckRender(s, secure, rest, k, "/solr/" + (collection + Slash(slash)));
  }

  lemma CheckRender(s: string, secure: bool, rest: string, k: nat, tail: string)
    requires StripScheme(s) == Some((secure, rest))
    requires k <= |rest| && rest[k..] == tail
    ensures s == Scheme(secure) + ("://" + (rest[..k] + tail))
  {
    StripSchemeSound(s);
    assert rest == rest[..k] + rest[k..];
  }

  /** Every string of the language is accepted, and the scanner recovers its parts. */
  lemma CheckComplete(p: LinkParts)
    requires WellFormed(p)
    ensures Check(Render(p)) == Some(p)
  {
    var tail := "/solr/" + (p.collection + Slash(p.trailingSlash));
    var rest := p.authority + tail;
    assert Render(p) == Scheme(p.secure) + ("://" + rest);
    StripSchemeRender(p.secure, rest);
    AuthorityHasNoSlash(p.authority);
    var k := |p.authority|;
    assert rest[..k] == p.authority && rest[k..] == tail;
    Strings.IndexOfFirst(rest, '/', k);
    AuthorityOkIff(p.authority);
    CollectionPartRender(p.collection, p.trailingSlash);
  }

  /** The link is accepted exactly when it is in the language of the expression. */
  lemma ValidLinkIff(s: string)
    ensures IsValidLink(s) <==> MatchesPattern(s)
  {
    if IsValidLink(s) {
      CheckSound(s);
    }
    if MatchesPattern(s) {
      var p :| WellFormed(p) && Render(p) == s;
      CheckComplete(p);
    }
  }

  /** Two well-formed links are the same string only if they are made of the same parts. */
  lemma RenderInjective(p: LinkParts, q: LinkParts)
    requires WellFormed(p) && WellFormed(q) && Render(p) == Render(q)
    ensures p == q
  {
    CheckComplete(p);
    CheckComplete(q);
  }
}

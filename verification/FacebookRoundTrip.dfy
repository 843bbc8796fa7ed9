/** The short query of every target leads back to its address, up to a family of
    user names and a family of links. */
module FacebookRoundTrip {
  import opened FacebookLookup
  import opened JsCollections
  import opened JsText
  import opened Options

  /** The characters `encodeURIComponent` leaves alone. */
  predicate IsUnreserved(c: char) {
    || IsAlnum(c) || c == '-' || c == '.' || c == '_' || c == '~'
    || c == '!' || c == '*' || c == '\'' || c == '(' || c == ')'
  }

  predicate IsSchemeChar(c: char) { 'a' <= c <= 'z' || IsDigit(c) || c == '+' || c == '-' || c == '.' }

  predicate IsScheme(s: string) { s != "" && 'a' <= s[0] <= 'z' && forall i :: 0 <= i < |s| ==> IsSchemeChar(s[i]) }

  predicate IsSegment(s: string) { s != "" && s != "." && s != ".." && forall i :: 0 <= i < |s| ==> IsUnreserved(s[i]) }

  predicate AreSegments(parts: seq<string>) { forall i :: 0 <= i < |parts| ==> IsSegment(parts[i]) }

  predicate IsHostName(h: string) {
    h != "" && forall i :: 0 <= i < |h| ==> IsDigit(h[i]) || 'a' <= h[i] <= 'z' || h[i] == '.' || h[i] == '-'
  }

  /** The pieces of a path: segments, and empty ones where slashes meet. */
  predicate ArePieces(pieces: seq<string>) {
    pieces != [] && forall i :: 0 <= i < |pieces| ==> pieces[i] == "" || IsSegment(pieces[i])
  }

  predicate WellFormed(u: Url) {
    IsScheme(u.scheme) && IsHostName(u.host) && IsFacebookHost(u.host) && ArePieces(u.pieces)
  }

  /** Characters of a path. */
  predicate IsPath(s: string) { forall i :: 0 <= i < |s| ==> IsUnreserved(s[i]) || s[i] == '/' }

  // ------------------------------------------------------------------ path strings

  lemma {:induction false} PathFacts(s: string)
    requires IsPath(s)
    ensures '#' !in s && '?' !in s && ':' !in s && '@' !in s && !HasSpace(s) && IsTrimmed(s)
  {
    forall i | 0 <= i < |s| ensures s[i] != '#' && s[i] != '?' && s[i] != ':' && s[i] != '@' && !IsSpace(s[i]) {
      assert IsUnreserved(s[i]) || s[i] == '/';
    }
  }

  lemma {:induction false} JoinIsPath(pieces: seq<string>)
    requires ArePieces(pieces)
    ensures var q := Join(pieces, "/");
      IsPath(q) && (pieces[0] != "" ==> q != "" && q[0] == pieces[0][0] && IsUnreserved(q[0]))
  {
    assert pieces[0] != "" ==> IsSegment(pieces[0]);
    if |pieces| > 1 {
      JoinIsPath(pieces[1..]);
      assert Join(pieces, "/") == pieces[0] + "/" + Join(pieces[1..], "/");
    }
  }

  lemma {:induction false} LowerHost(h: string)
    requires IsHostName(h)
    ensures ToLower(h) == h && IsPath(h)
  {
  }

  lemma {:induction false} SegmentsStay(parts: seq<string>)
    requires AreSegments(parts)
    ensures Without(parts, {""}) == parts && Without(parts + [""], {""}) == parts
  {
    if parts == [] {
      assert ([] + [""])[1..] == [];
    } else {
      assert IsSegment(parts[0]);
      assert (parts + [""])[1..] == parts[1..] + [""];
      SegmentsStay(parts[1..]);
    }
  }

  lemma {:induction false} PiecesHaveSegments(pieces: seq<string>)
    requires ArePieces(pieces)
    ensures AreSegments(Without(pieces, {""}))
  {
    var parts := Without(pieces, {""});
    forall i | 0 <= i < |parts| ensures IsSegment(parts[i]) {
      assert parts[i] in pieces;
      var k :| 0 <= k < |pieces| && pieces[k] == parts[i];
    }
  }

  lemma {:induction false} NoSlash(s: string)
    requires IsSegment(s) || IsHostName(s) || s == ""
    ensures '/' !in s
  {
    forall i | 0 <= i < |s| ensures s[i] != '/' { assert IsUnreserved(s[i]); }
  }

  lemma {:induction false} BodySplits(u: Url)
    requires IsHostName(u.host) && ArePieces(u.pieces)
    ensures Split(u.host + PathOf(u), '/') == [u.host] + u.pieces && IsPath(u.host + PathOf(u))
  {
    LowerHost(u.host);
    NoSlash(u.host);
    forall i | 0 <= i < |u.pieces| ensures '/' !in u.pieces[i] { NoSlash(u.pieces[i]); }
    JoinIsPath(u.pieces);
    SplitJoin(u.pieces, '/');
    SplitAt(u.host, '/', Join(u.pieces, "/"));
    assert u.host + PathOf(u) == u.host + ['/'] + Join(u.pieces, "/");
  }

  /** Parsing an address gives back what it was written from. */
  lemma {:induction false} ParseHref(u: Url)
    requires IsScheme(u.scheme) && IsHostName(u.host) && ArePieces(u.pieces) && u.query == []
    ensures ParseCanonical(Href(u)) == Some(u)
  {
    var body := u.host + PathOf(u);
    SchemeSplits(u.scheme, body);
    assert Href(u) == u.scheme + "://" + body;
    PlainBody(u);
  }

  lemma {:induction false} PlainBody(u: Url)
    requires IsHostName(u.host) && ArePieces(u.pieces) && u.query == []
    ensures var body := u.host + PathOf(u); Before(body, '#') == body && ParseRest(u.scheme, body) == Some(u)
  {
    var body := u.host + PathOf(u);
    BodySplits(u);
    PathFacts(body);
    BeforeNone(body, '#');
    BeforeNone(body, '?');
    LowerHost(u.host);
    assert ([u.host] + u.pieces)[1..] == u.pieces;
  }

  lemma {:induction false} SchemeSplits(scheme: string, body: string)
    requires IsScheme(scheme)
    ensures var s := scheme + "://" + body;
      Before(s, ':') == scheme && "://" <= s[|scheme|..] && s[|scheme| + 3..] == body && ToLower(scheme) == scheme
  {
    var s := scheme + "://" + body;
    assert s == scheme + [':'] + ("//" + body);
    BeforeAt(scheme, ':', "//" + body);
    assert s[|scheme|..] == "://" + body;
  }

  // ------------------------------------------------------------ reading short queries

  /** The page's own address of a path. */
  function OnWww(pieces: seq<string>): Url { Url("https", WWW, pieces, []) }

  function Short(pieces: seq<string>): string { Join(pieces, "/") }

  lemma {:induction false} WwwIsFacebook()
    ensures IsHostName(WWW) && IsFacebookHost(WWW) && !IsShortLinkHost(WWW) && IsScheme("https")
  {
    WwwIsHostName();
    assert WWW[4..] == "facebook.com";
    HostIsKnown(WWW, "facebook.com", 0);
    OtherEnd(WWW, ".fb.me");
    OtherEnd(WWW, ".fb.watch");
  }

  lemma {:induction false} WwwIsHostName()
    ensures IsHostName(WWW) && IsScheme("https")
  {
  }

  lemma {:induction false} HostIsKnown(host: string, root: string, i: nat)
    requires "www." <= host && host[4..] == root && i < |FB_HOSTS| && FB_HOSTS[i] == root
    ensures IsFacebookHost(host)
  {
  }

  lemma {:induction false} OtherEnd(s: string, t: string)
    requires s != "" && t != "" && s[|s| - 1] != t[|t| - 1]
    ensures !EndsWith(s, t)
  {
    assert |t| <= |s| ==> s[|s| - |t|..][|t| - 1] == s[|s| - 1];
  }

  lemma {:induction false} WwwHref(pieces: seq<string>)
    ensures Href(OnWww(pieces)) == CANONICAL + "/" + Short(pieces)
  {
    assert CANONICAL == "https" + "://" + WWW;
  }

  lemma {:induction false} ReadOnWww(pieces: seq<string>)
    requires ArePieces(pieces)
    ensures FacebookUrl(CANONICAL + "/" + Short(pieces)) == Some(OnWww(pieces))
  {
    WwwIsFacebook();
    WwwHref(pieces);
    ParseHref(OnWww(pieces));
  }

  /** A path is no text with spaces, with an `@` in front or with a scheme. */
  lemma {:induction false} ShortFacts(pieces: seq<string>)
    requires ArePieces(pieces)
    ensures var q := Short(pieces); Trim(q) == q && !HasSpace(q) && WithoutAt(q) == q && !HasScheme(q)
    ensures pieces[0] != "" ==> Short(pieces) != "" && StripSlashes(Short(pieces)) == Short(pieces)
  {
    var q := Short(pieces);
    JoinIsPath(pieces);
    PathFacts(q);
    TrimProperties(q);
    NoSchemeWithoutColon(q);
  }

  lemma {:induction false} NoSchemeWithoutColon(q: string)
    requires ':' !in q
    ensures !HasScheme(q)
  {
    BeforeNone(q, ':');
    assert q[|q|..] == "";
  }

  lemma {:induction false} HeadOfShort(pieces: seq<string>)
    requires ArePieces(pieces)
    ensures HeadOf(Short(pieces)) == ToLower(pieces[0])
  {
    var q := Short(pieces);
    JoinIsPath(pieces);
    PathFacts(q);
    BeforeNone(q, '#');
    BeforeNone(q, '?');
    NoSlash(pieces[0]);
    if |pieces| > 1 {
      assert q == pieces[0] + ['/'] + Short(pieces[1..]);
      BeforeAt(pieces[0], '/', Short(pieces[1..]));
    } else {
      BeforeNone(q, '/');
    }
  }

  /** A short query with a slash in it is read as a path on the canonical host,
      unless its head could be a host. */
  lemma {:induction false} ShortIsPath(pieces: seq<string>)
    requires ArePieces(pieces) && |pieces| > 1 && pieces[0] != "" && '.' !in ToLower(pieces[0])
    ensures Normalize(Short(pieces)) == TargetOf(OnWww(pieces))
  {
    ShortFacts(pieces);
    HeadOfShort(pieces);
    ReadOnWww(pieces);
    SlashIsNotBare(Short(pieces), |pieces[0]|);
    PathIsRead(Short(pieces), OnWww(pieces));
  }

  /** A text that is no bare name, has no scheme and whose head is no host is read
      as a path on the canonical host. */
  lemma {:induction false} PathIsRead(q: string, u: Url)
    requires q != "" && Trim(q) == q && !HasSpace(q) && BareTarget(WithoutAt(q)).None? && !HasScheme(q)
    requires '.' !in HeadOf(q) && FacebookUrl(CANONICAL + "/" + StripSlashes(q)) == Some(u)
    ensures Normalize(q) == TargetOf(u)
  {
  }

  /** The pieces behind the leading slashes. */
  function Stripped(pieces: seq<string>): seq<string> {
    if |pieces| > 1 && pieces[0] == "" then Stripped(pieces[1..]) else pieces
  }

  lemma {:induction false} StrippedFacts(pieces: seq<string>)
    requires ArePieces(pieces)
    ensures var r := Stripped(pieces);
      && ArePieces(r) && Without(r, {""}) == Without(pieces, {""})
      && (Without(pieces, {""}) != [] ==> r[0] != "" && StripSlashes(Short(pieces)) == Short(r))
  {
    if |pieces| > 1 && pieces[0] == "" {
      StrippedFacts(pieces[1..]);
      assert Short(pieces)[0] == '/' && Short(pieces)[1..] == Short(pieces[1..]);
    } else if pieces[0] == "" {
      assert pieces == [""] && [""][1..] == [];
    } else {
      ShortFacts(pieces);
    }
  }

  lemma {:induction false} MoreThanOnePiece(pieces: seq<string>)
    requires ArePieces(pieces) && pieces[0] == "" && Without(pieces, {""}) != []
    ensures |pieces| > 1
  {
    assert Without(pieces, {""}) == Without(pieces[1..], {""});
  }

  /** Leading slashes of a short query are dropped: it is read as the path behind
      them. */
  lemma {:induction false} LeadingSlashesAreDropped(pieces: seq<string>)
    requires ArePieces(pieces) && pieces[0] == "" && Without(pieces, {""}) != []
    ensures Normalize(Short(pieces)) == TargetOf(OnWww(Stripped(pieces)))
  {
    MoreThanOnePiece(pieces);
    ShortFacts(pieces);
    HeadOfShort(pieces);
    StrippedFacts(pieces);
    ReadOnWww(Stripped(pieces));
    assert Short(pieces)[0] == '/';
    SlashIsNotBare(Short(pieces), 0);
    PathIsRead(Short(pieces), OnWww(Stripped(pieces)));
  }

  lemma {:induction false} SlashIsNotBare(q: string, i: nat)
    requires i < |q| && q[i] == '/'
    ensures BareTarget(q).None?
  {
  }

  lemma {:induction false} ShortOfCanonical(q: string, handle: string, kind: Kind)
    ensures ShortQuery(Target(CANONICAL + "/" + q, handle, kind)) == q
  {
    var url := CANONICAL + "/" + q;
    assert url[..|CANONICAL| + 1] == CANONICAL + "/";
    assert url[|CANONICAL| + 1..] == q;
  }

  // -------------------------------------------------------------------- kind by kind

  lemma {:induction false} NotPhp(head: string)
    requires |head| < 4 || head[|head| - 4] != '.'
    ensures !EndsWith(head, ".php")
  {
    if |head| >= 4 { assert head[|head| - 4..][0] == head[|head| - 4]; }
  }

  /** The directory of a group, a person or a page. */
  predicate IsDirectory(head: string) { head == "groups" || head == "people" || head == "pages" }

  lemma {:induction false} DirectoryFacts(head: string)
    requires IsDirectory(head)
    ensures IsSegment(head) && ToLower(head) == head && '.' !in head && !EndsWith(head, ".php") && !IsNumeric(head)
    ensures head != "photo" && head != "share"
  {
    DirectoryLetters(head);
    LettersOnly(head);
  }

  lemma {:induction false} DirectoryLetters(head: string)
    requires IsDirectory(head)
    ensures head != "" && forall i :: 0 <= i < |head| ==> 'a' <= head[i] <= 'z'
    ensures head != "photo" && head != "share"
  {
    assert head[0] == 'g' || head[1] != 'h';
  }

  lemma {:induction false} LettersOnly(head: string)
    requires head != "" && forall i :: 0 <= i < |head| ==> 'a' <= head[i] <= 'z'
    ensures IsSegment(head) && ToLower(head) == head && '.' !in head && !EndsWith(head, ".php") && !IsNumeric(head)
  {
    assert head[0] != '.';
    NotPhp(head);
  }

  lemma {:induction false} JoinTwo(a: string, b: string)
    ensures Join([a, b], "/") == a + "/" + b
  {
    assert [a, b][1..] == [b];
  }

  lemma {:induction false} ShortCons(head: string, tail: seq<string>)
    requires tail != []
    ensures Short([head] + tail) == head + "/" + Short(tail)
  {
    assert ([head] + tail)[1..] == tail;
  }

  /** What a directory path is read as is decided by `PathTarget` alone. */
  lemma {:induction false} DirectoryPath(head: string, tail: seq<string>)
    requires IsDirectory(head) && ArePieces(tail)
    ensures Normalize(head + "/" + Short(tail)) == PathTarget([head] + Without(tail, {""}), None)
  {
    ShortCons(head, tail);
    DirectoryFacts(head);
    assert ArePieces([head] + tail);
    ShortIsPath([head] + tail);
    PathOnWww(head, tail);
  }

  lemma {:induction false} PathOnWww(head: string, tail: seq<string>)
    requires head != "" && head != "share"
    ensures TargetOf(OnWww([head] + tail)) == PathTarget([head] + Without(tail, {""}), None)
  {
    WwwIsFacebook();
    assert ([head] + tail)[1..] == tail;
    assert Segments(OnWww([head] + tail)) == [head] + Without(tail, {""});
  }

  lemma {:induction false} GroupComesBack(slug: string)
    requires IsSegment(slug)
    ensures Normalize(ShortQuery(Plain("groups/" + slug, Group))) == Some(Plain("groups/" + slug, Group))
  {
    ShortOfCanonical("groups/" + slug, "groups/" + slug, Group);
    SegmentsStay([slug]);
    DirectoryPath("groups", [slug]);
    DirectoryFacts("groups");
    assert "groups/" == "groups" + "/";
    assert Short([slug]) == slug;
    assert (["groups"] + [slug])[1] == slug;
  }

  function PeopleUrl(name: string, id: string): string { CANONICAL + "/people/" + name + "/" + id + "/" }

  lemma {:induction false} PeopleShort(name: string, id: string)
    ensures PeopleUrl(name, id) == CANONICAL + "/" + ("people" + "/" + Short([name, id, ""]))
  {
    assert [name] + [id, ""] == [name, id, ""];
    ShortCons(name, [id, ""]);
    JoinTwo(id, "");
    assert "/people/" == "/" + ("people" + "/");
    assert CANONICAL + "/people/" == CANONICAL + "/" + ("people" + "/");
    assert Short([name, id, ""]) == name + "/" + (id + "/");
  }

  lemma {:induction false} PeopleComesBack(name: string, id: string)
    requires IsSegment(name) && IsSegment(id) && IsNumeric(id)
    ensures var t := Target(PeopleUrl(name, id), "people/\U{2026}/" + id, People); Normalize(ShortQuery(t)) == Some(t)
  {
    PeopleShort(name, id);
    ShortOfCanonical("people" + "/" + Short([name, id, ""]), "people/\U{2026}/" + id, People);
    PeopleIsRead("people", name, id);
  }

  lemma {:induction false} PeopleIsRead(head: string, name: string, id: string)
    requires head == "people" && IsSegment(name) && IsSegment(id) && IsNumeric(id)
    ensures Normalize(head + "/" + Short([name, id, ""])) ==
      Some(Target(PeopleUrl(name, id), "people/\U{2026}/" + id, People))
  {
    SegmentsStay([name, id]);
    assert [name, id] + [""] == [name, id, ""];
    DirectoryPath(head, [name, id, ""]);
    DirectoryFacts(head);
    PeopleParts([head] + [name, id]);
  }

  lemma {:induction false} PeopleParts(parts: seq<string>)
    requires |parts| > 2 && parts[0] == "people" && ToLower(parts[0]) == parts[0] && !EndsWith(parts[0], ".php")
    requires IsNumeric(parts[2])
    ensures PathTarget(parts, None) ==
      Some(Target(PeopleUrl(parts[1], parts[2]), "people/\U{2026}/" + parts[2], People))
  {
  }

  function PagesUrl(tail: seq<string>): string { CANONICAL + "/pages/" + Join(tail, "/") }

  lemma {:induction false} PagesShort(tail: seq<string>)
    ensures PagesUrl(tail) == CANONICAL + "/" + ("pages" + "/" + Short(tail))
  {
    assert "/pages/" == "/" + ("pages" + "/");
    assert CANONICAL + "/pages/" == CANONICAL + "/" + ("pages" + "/");
  }

  lemma {:induction false} LastNumericTail(head: string, other: string, tail: seq<string>)
    requires !IsNumeric(other) && LastNumeric([head] + tail).None?
    ensures LastNumeric([other] + tail).None?
  {
    if tail == [] {
      assert [other][..0] == [];
    } else {
      var n := |tail|;
      assert ([head] + tail)[..n] == [head] + tail[..n - 1] && ([other] + tail)[..n] == [other] + tail[..n - 1];
      LastNumericTail(head, other, tail[..n - 1]);
    }
  }

  lemma {:induction false} PagesComesBack(head: string, tail: seq<string>)
    requires AreSegments(tail) && tail != [] && LastNumeric([head] + tail).None?
    ensures var t := Target(PagesUrl(tail), "pages/" + tail[0], Page); Normalize(ShortQuery(t)) == Some(t)
  {
    PagesShort(tail);
    ShortOfCanonical("pages" + "/" + Short(tail), "pages/" + tail[0], Page);
    SegmentsStay(tail);
    DirectoryPath("pages", tail);
    DirectoryFacts("pages");
    LastNumericTail(head, "pages", tail);
    var parts := ["pages"] + tail;
    assert parts[1..] == tail && parts[1] == tail[0];
  }

  lemma {:induction false} PlainFacts(s: string)
    requires IsNumeric(s) || IsUsername(s)
    ensures IsPath(s) && Trim(s) == s && !HasSpace(s) && WithoutAt(s) == s && s != "" && '/' !in s && IsSegment(s)
  {
    assert IsPath(s);
    PathFacts(s);
    TrimProperties(s);
    assert IsSegment(s) by {
      forall i | 0 <= i < |s| ensures IsUnreserved(s[i]) {}
      assert IsUnreserved(s[0]) && s[0] != '.';
    }
  }

  /** Ids and user names without `.com` are read as they stand. */
  lemma {:induction false} BareComesBack(name: string, kind: Kind)
    requires IsNumeric(name) || (IsUsername(name) && !Contains(name, ".com"))
    ensures Normalize(ShortQuery(Plain(name, kind))) == Some(Plain(name, if IsNumeric(name) then Numeric else Username))
  {
    PlainFacts(name);
    ShortOfCanonical(name, name, kind);
  }

  // ------------------------------------------------------------------ profile queries

  predicate IsPlainQuery(query: string) {
    forall i :: 0 <= i < |query| ==> !IsSpace(query[i]) && query[i] != ':' && query[i] != '#'
  }

  lemma {:induction false} QueryText(page: string, query: string)
    requires IsSegment(page) && IsPlainQuery(query)
    ensures var q := page + ['?'] + query; q != "" && IsPlainQuery(q) && IsUnreserved(q[0]) && q[|page|] == '?'
  {
    var q := page + ['?'] + query;
    forall i | 0 <= i < |q| ensures !IsSpace(q[i]) && q[i] != ':' && q[i] != '#' {
      if i < |page| { assert IsUnreserved(page[i]); }
      if i > |page| { assert q[i] == query[i - |page| - 1]; }
    }
    assert IsUnreserved(page[0]);
  }

  lemma {:induction false} NotBare(q: string, i: nat)
    requires i < |q| && q[i] == '?'
    ensures BareTarget(q).None?
  {
  }

  lemma {:induction false} PlainQueryFacts(q: string)
    requires q != "" && IsPlainQuery(q) && IsUnreserved(q[0])
    ensures Trim(q) == q && !HasSpace(q) && WithoutAt(q) == q && !HasScheme(q) && StripSlashes(q) == q && '#' !in q
  {
    TrimProperties(q);
    NoSchemeWithoutColon(q);
  }

  lemma {:induction false} QueryHead(page: string, query: string)
    requires IsSegment(page) && '#' !in page + ['?'] + query
    ensures HeadOf(page + ['?'] + query) == ToLower(page)
  {
    BeforeNone(page + ['?'] + query, '#');
    BeforeAt(page, '?', query);
    BeforeNone(page, '/');
  }

  /** A reserved page with a query is read on the canonical host. */
  lemma {:induction false} ReadQuery(page: string, query: string)
    requires IsSegment(page) && IsPlainQuery(query) && ToLower(page) in RESERVED
    ensures var q := page + ['?'] + query;
      Normalize(q) == (var u := FacebookUrl(CANONICAL + "/" + q); if u.None? then None else TargetOf(u.value))
  {
    var q := page + ['?'] + query;
    QueryText(page, query);
    NotBare(q, |page|);
    PlainQueryFacts(q);
    QueryHead(page, query);
  }

  lemma {:induction false} CutQuery(front: string, query: string)
    requires IsPath(front) && '#' !in query
    ensures var body := front + ['?'] + query;
      Before(body, '#') == body && Before(body, '?') == front && Behind(body, '?') == query
  {
    BeforeAt(front, '?', query);
    BeforeNone(front + ['?'] + query, '#');
  }

  lemma {:induction false} QueryBody(u: Url, query: string)
    requires IsHostName(u.host) && ArePieces(u.pieces) && query != "" && '#' !in query && '&' !in query
    ensures var rest := u.host + PathOf(u) + ['?'] + query;
      Before(rest, '#') == rest && ParseRest(u.scheme, rest) == Some(u.(query := [ParsePair(query)]))
  {
    var front := u.host + PathOf(u);
    BodySplits(u);
    CutQuery(front, query);
    LowerHost(u.host);
    assert ([u.host] + u.pieces)[1..] == u.pieces;
    SplitPlain(query, '&');
    assert MapSeq(ParsePair, [query]) == [ParsePair(query)];
  }

  lemma {:induction false} ParseWithQuery(u: Url, query: string)
    requires IsScheme(u.scheme) && IsHostName(u.host) && ArePieces(u.pieces)
    requires query != "" && '#' !in query && '&' !in query
    ensures ParseCanonical(Href(u) + ['?'] + query) == Some(u.(query := [ParsePair(query)]))
  {
    var body := u.host + PathOf(u) + ['?'] + query;
    SchemeSplits(u.scheme, body);
    HrefWithQuery(u, query);
    QueryBody(u, query);
  }

  lemma {:induction false} HrefWithQuery(u: Url, query: string)
    ensures Href(u) + ['?'] + query == u.scheme + "://" + (u.host + PathOf(u) + ['?'] + query)
  {
  }

  lemma {:induction false} ParsedOnSite(s: string, u: Url)
    requires ParseCanonical(s) == Some(u) && IsFacebookHost(u.host)
    ensures FacebookUrl(s) == Some(u)
  {
  }

  lemma {:induction false} PageHref(page: string, query: string)
    ensures CANONICAL + "/" + (page + ['?'] + query) == Href(OnWww([page])) + ['?'] + query
  {
    WwwHref([page]);
    assert Short([page]) == page;
  }

  lemma {:induction false} QueryUrl(page: string, query: string)
    requires IsSegment(page) && query != "" && '#' !in query && '&' !in query
    ensures FacebookUrl(CANONICAL + "/" + (page + ['?'] + query)) ==
      Some(Url("https", WWW, [page], [ParsePair(query)]))
  {
    var u := OnWww([page]);
    WwwIsFacebook();
    ParseWithQuery(u, query);
    PageHref(page, query);
    ParsedOnSite(Href(u) + ['?'] + query, u.(query := [ParsePair(query)]));
  }

  lemma {:induction false} IdQuery(id: string)
    requires IsNumeric(id)
    ensures var query := "id=" + id;
      && query != "" && '#' !in query && '&' !in query && ParsePair(query) == ("id", id)
      && IsPlainQuery(query)
  {
    var query := "id=" + id;
    forall i | 0 <= i < |query|
      ensures query[i] != '#' && query[i] != '&' && query[i] != ':' && !IsSpace(query[i])
    {
      if i >= 3 { assert query[i] == id[i - 3] && IsDigit(id[i - 3]); }
    }
    assert query == "id" + ['='] + id;
    BeforeAt("id", '=', id);
  }

  lemma {:induction false} ProfileName(page: string)
    requires page == "profile.php"
    ensures IsSegment(page) && ToLower(page) == page && EndsWith(page, ".php") && page in RESERVED && page != "share"
  {
    assert page[7..] == ".php";
    assert RESERVED[0] == page;
  }

  function ProfileTarget(id: string): Target
  {
    Target(CANONICAL + "/profile.php?id=" + id, "profile.php?id=" + id, Profile)
  }

  lemma {:induction false} ProfileShort(id: string)
    ensures ShortQuery(ProfileTarget(id)) == "profile.php" + ['?'] + ("id=" + id)
  {
    var q := "profile.php?id=" + id;
    assert "/profile.php?id=" == "/" + "profile.php?id=";
    assert CANONICAL + "/profile.php?id=" + id == CANONICAL + "/" + q;
    ShortOfCanonical(q, q, Profile);
    assert "profile.php?id=" == "profile.php" + ['?'] + "id=";
  }

  lemma {:induction false} ProfileComesBack(id: string)
    requires IsNumeric(id)
    ensures Normalize(ShortQuery(ProfileTarget(id))) == Some(ProfileTarget(id))
  {
    var page, query := "profile.php", "id=" + id;
    ProfileShort(id);
    ProfileName(page);
    IdQuery(id);
    ReadQuery(page, query);
    QueryUrl(page, query);
    ProfileOfPage(page, id);
  }

  lemma {:induction false} ProfileOfPage(page: string, id: string)
    requires page != "" && page != "share" && EndsWith(ToLower(page), ".php") && IsNumeric(id)
    ensures TargetOf(Url("https", WWW, [page], [("id", id)])) == Some(ProfileTarget(id))
  {
    WwwIsFacebook();
    OnePiece(page);
    ProfileParts([page], id);
    NoLink(Url("https", WWW, [page], [("id", id)]), [page]);
  }

  lemma {:induction false} OnePiece(piece: string)
    requires piece != ""
    ensures Without([piece], {""}) == [piece]
  {
    assert [piece][1..] == [];
  }

  lemma {:induction false} NoLink(u: Url, parts: seq<string>)
    requires Segments(u) == parts && parts != [] && !IsShortLinkHost(u.host) && parts[0] != "share"
    ensures TargetOf(u) == PathTarget(parts, OwnerParam(u.query))
  {
  }

  lemma {:induction false} ProfileParts(parts: seq<string>, id: string)
    requires parts != [] && EndsWith(ToLower(parts[0]), ".php") && IsNumeric(id)
    ensures OwnerParam([("id", id)]) == Some(id) && PathTarget(parts, Some(id)) == Some(ProfileTarget(id))
  {
  }

  // ------------------------------------------------------- user names with `.com`

  /** A bare word is parsed as a host without a path. */
  lemma {:induction false} BareHost(name: string)
    requires IsUsername(name)
    ensures ParseCanonical("https://" + name) == Some(Url("https", ToLower(name), [""], []))
  {
    PlainFacts(name);
    PathFacts(name);
    SchemeSplits("https", name);
    assert "https://" + name == "https" + "://" + name;
    BeforeNone(name, '#');
    BeforeNone(name, '?');
    SplitPlain(name, '/');
  }

  lemma {:induction false} DotInLower(name: string)
    requires Contains(name, ".com")
    ensures '.' in ToLower(name)
  {
    var i :| 0 <= i <= |name| - 4 && OccursAt(name, ".com", i);
    assert name[i..i + 4][0] == '.';
    assert ToLower(name)[i] == '.';
  }

  lemma {:induction false} DottedIsHostOrPath(name: string)
    requires IsUsername(name) && !IsNumeric(name) && Contains(name, ".com") && ToLower(name) !in RESERVED
    ensures IsFacebookHost(ToLower(name)) ==> Normalize(name).None?
    ensures !IsFacebookHost(ToLower(name)) ==> Normalize(name) == TargetOf(OnWww([name]))
  {
    NameHead(name);
    NameIsNotBare(name);
    DottedText(name);
    NameAsHost(name);
    NameAsPath(name);
    NoPath("https", ToLower(name));
  }

  lemma {:induction false} NameIsNotBare(name: string)
    requires IsUsername(name) && !IsNumeric(name) && Contains(name, ".com")
    ensures name != "" && Trim(name) == name && !HasSpace(name) && BareTarget(WithoutAt(name)).None?
  {
    PlainFacts(name);
  }

  lemma {:induction false} NameAsHost(name: string)
    requires IsUsername(name)
    ensures FacebookUrl("https://" + name) ==
      if IsFacebookHost(ToLower(name)) then Some(Url("https", ToLower(name), [""], [])) else None
  {
    BareHost(name);
  }

  lemma {:induction false} NameAsPath(name: string)
    requires IsUsername(name)
    ensures FacebookUrl(CANONICAL + "/" + name) == Some(OnWww([name]))
  {
    PlainFacts(name);
    ReadOnWww([name]);
    assert Short([name]) == name;
  }

  /** A text whose head could be a host is read as one, or else as a path. */
  lemma {:induction false} DottedText(q: string)
    requires q != "" && Trim(q) == q && !HasSpace(q) && BareTarget(WithoutAt(q)).None? && !HasScheme(q)
    requires '.' in HeadOf(q) && HeadOf(q) !in RESERVED
    ensures var asHost, asPath := FacebookUrl("https://" + q), FacebookUrl(CANONICAL + "/" + StripSlashes(q));
      Normalize(q) == if asHost.Some? then TargetOf(asHost.value)
                      else if asPath.Some? then TargetOf(asPath.value) else None
  {
  }

  lemma {:induction false} NoPath(scheme: string, host: string)
    ensures TargetOf(Url(scheme, host, [""], [])).None?
  {
    assert Without([""], {""}) == [] by { assert [""][1..] == []; }
  }

  lemma {:induction false} NameHead(name: string)
    requires IsUsername(name) && Contains(name, ".com")
    ensures '.' in HeadOf(name) && HeadOf(name) == ToLower(name) && !HasScheme(name) && StripSlashes(name) == name
  {
    PlainFacts(name);
    assert Short([name]) == name;
    ShortFacts([name]);
    HeadOfShort([name]);
    DotInLower(name);
  }

  /** The user names that the short form does not bring back. */
  predicate HidesHost(t: Target) {
    t.kind.Username? && Contains(t.handle, ".com") && IsFacebookHost(ToLower(t.handle))
  }

  lemma {:induction false} UsernameComesBack(name: string)
    requires PathTarget([name], None) == Some(Plain(name, Username))
    ensures var t := Plain(name, Username); Normalize(ShortQuery(t)) == if HidesHost(t) then None else Some(t)
  {
    UsernameFacts(name);
    ShortOfCanonical(name, name, Username);
    if Contains(name, ".com") {
      DottedIsHostOrPath(name);
      NameOnWww(name);
    } else {
      BareComesBack(name, Username);
    }
  }

  lemma {:induction false} NameOnWww(name: string)
    requires IsUsername(name) && name != "share"
    ensures TargetOf(OnWww([name])) == PathTarget([name], None)
  {
    PlainFacts(name);
    SegmentsStay([name]);
    WwwIsFacebook();
  }

  lemma {:induction false} UsernameFacts(name: string)
    requires PathTarget([name], None) == Some(Plain(name, Username))
    ensures IsUsername(name) && !IsNumeric(name) && ToLower(name) !in RESERVED && name != "share"
  {
    if name == "share" { ShareIsName(name); }
  }

  // --------------------------------------------------------------------------- links

  lemma {:induction false} HrefFacts(u: Url)
    requires IsScheme(u.scheme) && IsHostName(u.host) && ArePieces(u.pieces)
    ensures var s := Href(u);
      && s != "" && Trim(s) == s && !HasSpace(s) && WithoutAt(s) == s && BareTarget(s).None? && HasScheme(s)
  {
    var body := u.host + PathOf(u);
    assert Href(u) == u.scheme + "://" + body;
    LowerHost(u.host);
    JoinIsPath(u.pieces);
    HrefText(u.scheme, body);
    SchemeIsRead(u.scheme, body);
    SlashIsNotBare(Href(u), |u.scheme| + 1);
  }

  lemma {:induction false} SchemeIsRead(scheme: string, body: string)
    requires IsScheme(scheme)
    ensures HasScheme(scheme + "://" + body)
  {
    SchemeSplits(scheme, body);
    forall i | 0 <= i < |scheme| ensures IsAlnum(scheme[i]) || scheme[i] in ['+', '.', '-'] {
      assert IsSchemeChar(scheme[i]);
    }
  }

  lemma {:induction false} HrefText(scheme: string, body: string)
    requires IsScheme(scheme) && IsPath(body)
    ensures var s := scheme + "://" + body; Trim(s) == s && !HasSpace(s) && s[0] != '@' && s[|scheme| + 1] == '/'
  {
    var s := scheme + "://" + body;
    forall i | 0 <= i < |s| ensures !IsSpace(s[i]) {
      if i >= |scheme| + 3 { assert s[i] == body[i - |scheme| - 3]; }
    }
    TrimProperties(s);
  }

  /** A full address is read as the page it names. */
  lemma {:induction false} ReadHref(u: Url)
    requires WellFormed(u) && u.query == []
    ensures Normalize(Href(u)) == TargetOf(u)
  {
    HrefFacts(u);
    ParseHref(u);
  }

  /** An address starts with the canonical one exactly when it has that scheme and host. */
  lemma {:induction false} StartsCanonical(u: Url)
    requires IsScheme(u.scheme) && IsHostName(u.host)
    ensures CANONICAL + "/" <= Href(u) <==> u.scheme == "https" && u.host == WWW
  {
    if CANONICAL + "/" <= Href(u) { CanonicalStart(u); }
    if u.scheme == "https" && u.host == WWW { CanonicalHref(u); }
  }

  lemma {:induction false} CanonicalHref(u: Url)
    requires u.scheme == "https" && u.host == WWW
    ensures CANONICAL + "/" <= Href(u)
  {
    assert Href(u) == "https" + "://" + WWW + PathOf(u);
    assert PathOf(u) == "/" + PathOf(u)[1..];
    assert CANONICAL == "https" + "://" + WWW;
    assert Href(u) == CANONICAL + "/" + PathOf(u)[1..];
  }

  lemma {:induction false} CanonicalStart(u: Url)
    requires IsScheme(u.scheme) && IsHostName(u.host) && CANONICAL + "/" <= Href(u)
    ensures u.scheme == "https" && u.host == WWW
  {
    var rest := Href(u)[|CANONICAL| + 1..];
    assert Href(u) == CANONICAL + "/" + rest;
    assert PathOf(u) == "/" + PathOf(u)[1..];
    HrefSplits(u, PathOf(u)[1..]);
    SameStart(Href(u), rest);
  }

  lemma {:induction false} HrefSplits(u: Url, path: string)
    requires IsScheme(u.scheme) && IsHostName(u.host) && PathOf(u) == "/" + path
    ensures var s := Href(u);
      && s == u.scheme + "://" + u.host + "/" + path
      && Before(s, ':') == u.scheme && Before(s[|u.scheme| + 3..], '/') == u.host
  {
    var body := u.host + ['/'] + path;
    assert Href(u) == u.scheme + "://" + body;
    SchemeSplits(u.scheme, body);
    BeforeAt(u.host, '/', path);
  }

  lemma {:induction false} SameStart(s: string, rest: string)
    requires s == CANONICAL + "/" + rest
    ensures Before(s, ':') == "https" && s[8..] == WWW + ['/'] + rest && Before(s[8..], '/') == WWW
  {
    var body := WWW + ['/'] + rest;
    assert CANONICAL == "https" + "://" + WWW;
    assert s == "https" + "://" + body;
    SchemeSplits("https", body);
    assert '/' !in WWW;
    BeforeAt(WWW, '/', rest);
  }

  function LinkOf(u: Url): Target { Target(Href(u), u.host + "/" + Join(Segments(u), "/"), Link) }

  predicate IsLink(u: Url) { Segments(u) != [] && (IsShortLinkHost(u.host) || Segments(u)[0] == "share") }

  /** The one path that is read as a user name. */
  predicate IsLoneShare(u: Url) { u.scheme == "https" && u.host == WWW && u.pieces == ["share"] }

  /** The links that lose slashes: canonical ones whose path begins with two or more. */
  predicate LosesSlashes(t: Target) { t.kind.Link? && CANONICAL + "//" <= t.url }

  /** What the short form of a link is read as. */
  lemma {:induction false} LinkIsRead(u: Url)
    requires WellFormed(u) && IsLink(u)
    ensures var r := Normalize(ShortQuery(LinkOf(u)));
      if LosesSlashes(LinkOf(u)) then r == Some(LinkOf(OnWww(Stripped(u.pieces)))) && r.value.url != LinkOf(u).url
      else r == Some(if IsLoneShare(u) then Plain("share", Username) else LinkOf(u))
  {
    StartsCanonical(u);
    if u.scheme == "https" && u.host == WWW {
      WwwIsFacebook();
      SlashesOfHref(u);
      if u.pieces[0] == "" { SlashesAreLost(u); } else { ShareComesBack(u.pieces, LinkOf(u)); }
    } else {
      assert !(CANONICAL + "//" <= Href(u)) by {
        if CANONICAL + "//" <= Href(u) { ShorterStart(Href(u)); }
      }
      ReadHref(u.(query := []));
    }
  }

  lemma {:induction false} ShorterStart(s: string)
    requires CANONICAL + "//" <= s
    ensures CANONICAL + "/" <= s
  {
    assert CANONICAL + "//" == CANONICAL + "/" + "/";
  }

  /** A canonical address begins its path with two slashes exactly when its first piece is empty. */
  lemma {:induction false} SlashesOfHref(u: Url)
    requires u.scheme == "https" && u.host == WWW && ArePieces(u.pieces) && Segments(u) != []
    ensures Href(u) == CANONICAL + "/" + Short(u.pieces)
    ensures CANONICAL + "//" <= Href(u) <==> u.pieces[0] == ""
  {
    var q := Short(u.pieces);
    WwwHref(u.pieces);
    JoinIsPath(u.pieces);
    assert CANONICAL + "//" == CANONICAL + "/" + "/";
    if u.pieces[0] == "" {
      MoreThanOnePiece(u.pieces);
      assert q == "/" + Short(u.pieces[1..]);
      assert Href(u) == CANONICAL + "//" + Short(u.pieces[1..]);
    } else {
      NoSlash(u.pieces[0]);
      assert Href(u)[|CANONICAL| + 1] == q[0] != '/';
    }
  }

  lemma {:induction false} SlashesAreLost(u: Url)
    requires WellFormed(u) && IsLink(u) && u.scheme == "https" && u.host == WWW && u.pieces[0] == ""
    ensures var r := LinkOf(OnWww(Stripped(u.pieces)));
      Normalize(ShortQuery(LinkOf(u))) == Some(r) && r.url != LinkOf(u).url
  {
    var pieces := Stripped(u.pieces);
    WwwIsFacebook();
    SlashesOfHref(u);
    StrippedFacts(u.pieces);
    ShortOfCanonical(Short(u.pieces), LinkOf(u).handle, Link);
    LeadingSlashesAreDropped(u.pieces);
    SlashesOfHref(OnWww(pieces));
  }

  lemma {:induction false} ShareComesBack(pieces: seq<string>, t: Target)
    requires ArePieces(pieces) && pieces[0] != "" && IsLink(OnWww(pieces)) && t == LinkOf(OnWww(pieces))
    ensures Normalize(ShortQuery(t)) == Some(if pieces == ["share"] then Plain("share", Username) else t)
  {
    ShareIsFirst(pieces);
    ShareText(pieces, t);
    if |pieces| > 1 {
      ShareIsName("share");
      ShortIsPath(pieces);
    } else {
      assert pieces == ["share"];
      LoneShareIsName("share");
    }
  }

  lemma {:induction false} ShareText(pieces: seq<string>, t: Target)
    requires t.url == Href(OnWww(pieces))
    ensures ShortQuery(t) == Short(pieces)
  {
    WwwHref(pieces);
    ShortOfCanonical(Short(pieces), t.handle, t.kind);
  }

  lemma {:induction false} ShareIsFirst(pieces: seq<string>)
    requires ArePieces(pieces) && pieces[0] != "" && IsLink(OnWww(pieces))
    ensures pieces[0] == "share" && TargetOf(OnWww(pieces)) == Some(LinkOf(OnWww(pieces)))
  {
    WwwIsFacebook();
    assert Segments(OnWww(pieces))[0] == pieces[0];
  }

  lemma {:induction false} LoneShareIsName(word: string)
    requires word == "share"
    ensures Normalize(word) == Some(Plain(word, Username))
  {
    ShareIsName(word);
    ShortOfCanonical(word, word, Username);
    BareComesBack(word, Username);
  }

  lemma {:induction false} ShareIsName(word: string)
    requires word == "share"
    ensures '.' !in ToLower(word) && ToLower(word) in RESERVED && IsUsername(word) && !IsNumeric(word) &&
      !Contains(word, ".com")
  {
    forall i | 0 <= i < |word| ensures 'a' <= word[i] <= 'z' {}
    if Contains(word, ".com") { DotInLower(word); }
    assert ToLower(word) == word && RESERVED[13] == "share";
  }

  // ------------------------------------------------------------------- every target

  /** A page known by its number comes back as a number. */
  function Reread(t: Target): Target {
    if t.kind.Page? && IsNumeric(t.handle) then t.(kind := Numeric) else t
  }

  lemma {:induction false} LastNumericIs(parts: seq<string>)
    ensures var r := LastNumeric(parts); r.Some? ==> IsNumeric(r.value)
  {
    if parts != [] && !IsNumeric(parts[|parts| - 1]) { LastNumericIs(parts[..|parts| - 1]); }
  }

  ghost predicate ComesBack(t: Target) {
    Normalize(ShortQuery(t)) == if HidesHost(t) then None else Some(Reread(t))
  }

  lemma {:induction false} PagesPath(parts: seq<string>, t: Target)
    requires AreSegments(parts) && parts != [] && ToLower(parts[0]) == "pages" && PathTarget(parts, None) == Some(t)
    ensures t.kind.Page? && ComesBack(t)
  {
    var number := LastNumeric(parts);
    DirectoryFacts("pages");
    LastNumericIs(parts);
    if number.Some? {
      BareComesBack(number.value, Page);
    } else {
      var tail := parts[1..];
      assert parts == [parts[0]] + tail;
      PagesComesBack(parts[0], tail);
      assert !IsNumeric("pages/" + tail[0]) by { assert ("pages/" + tail[0])[0] == 'p'; }
    }
  }

  lemma {:induction false} PeoplePath(parts: seq<string>, t: Target)
    requires AreSegments(parts) && parts != [] && ToLower(parts[0]) == "people" && PathTarget(parts, None) == Some(t)
    ensures t.kind.People? && ComesBack(t)
  {
    PeopleComesBack(parts[1], parts[2]);
  }

  lemma {:induction false} GroupPath(parts: seq<string>, t: Target)
    requires AreSegments(parts) && parts != [] && ToLower(parts[0]) == "groups" && PathTarget(parts, None) == Some(t)
    ensures t.kind.Group? && ComesBack(t)
  {
    DirectoryFacts("groups");
    assert RESERVED[3] == "groups";
    GroupComesBack(parts[1]);
  }

  predicate IsPhoto(head: string) { EndsWith(head, ".php") || head == "photo" }

  lemma {:induction false} PhotoForm(parts: seq<string>, owner: Option<string>, t: Target)
    requires parts != [] && IsPhoto(ToLower(parts[0])) && PathTarget(parts, owner) == Some(t)
    ensures if owner.Some? && IsNumeric(owner.value) then t == ProfileTarget(owner.value)
      else |parts| > 1 && IsNumeric(parts[1]) && t == Plain(parts[1], Numeric)
  {
  }

  lemma {:induction false} PhotoPath(parts: seq<string>, owner: Option<string>, t: Target)
    requires AreSegments(parts) && parts != [] && IsPhoto(ToLower(parts[0])) && PathTarget(parts, owner) == Some(t)
    ensures !t.kind.Username? && ComesBack(t)
  {
    PhotoForm(parts, owner, t);
    if owner.Some? && IsNumeric(owner.value) {
      ProfileComesBack(owner.value);
      StaysItself(ProfileTarget(owner.value));
    } else {
      BareComesBack(parts[1], Numeric);
      StaysItself(Plain(parts[1], Numeric));
    }
  }

  lemma {:induction false} StaysItself(t: Target)
    requires Normalize(ShortQuery(t)) == Some(t) && !t.kind.Username? && !t.kind.Page?
    ensures ComesBack(t)
  {
  }

  lemma {:induction false} NamePath(parts: seq<string>, t: Target)
    requires AreSegments(parts) && parts != [] && !IsPhoto(ToLower(parts[0])) && !IsDirectory(ToLower(parts[0]))
    requires PathTarget(parts, None) == Some(t)
    ensures ComesBack(t)
  {
    if IsNumeric(parts[0]) {
      BareComesBack(parts[0], Numeric);
    } else {
      UsernameComesBack(parts[0]);
    }
  }

  lemma {:induction false} PathComesBack(parts: seq<string>, owner: Option<string>, t: Target)
    requires AreSegments(parts) && parts != [] && PathTarget(parts, owner) == Some(t)
    ensures ComesBack(t) && !t.kind.Link?
  {
    var head := ToLower(parts[0]);
    if IsPhoto(head) {
      PhotoPath(parts, owner, t);
    } else if head == "groups" {
      GroupPath(parts, t);
    } else if head == "people" {
      PeoplePath(parts, t);
    } else if head == "pages" {
      PagesPath(parts, t);
    } else {
      NamePath(parts, t);
    }
  }

  // ------------------------------------------------------------------- main results

  /** The short query of a target leads back to the same address exactly when the
      target is neither a user name that is a host of the site nor a canonical
      link whose path begins with two slashes. The former is read as nothing, the
      latter as the link with one slash. */
  lemma {:induction false} RoundTripOfUrl(u: Url, t: Target)
    requires WellFormed(u) && TargetOf(u) == Some(t)
    ensures var r := Normalize(ShortQuery(t));
      (r.Some? && r.value.url == t.url) <==> !HidesHost(t) && !LosesSlashes(t)
    ensures HidesHost(t) ==> Normalize(ShortQuery(t)).None?
    ensures LosesSlashes(t) ==> Normalize(ShortQuery(t)) == Some(LinkOf(OnWww(Stripped(u.pieces))))
    ensures !HidesHost(t) && !LosesSlashes(t) && Normalize(ShortQuery(t)) != Some(t) ==>
      (t.kind.Page? && IsNumeric(t.handle)) || IsLoneShare(u)
  {
    if IsLink(u) {
      LinkIsRead(u);
      if IsLoneShare(u) { LoneShare(u); }
    } else {
      PiecesHaveSegments(u.pieces);
      PathComesBack(Segments(u), OwnerParam(u.query), t);
    }
  }

  lemma {:induction false} LoneShare(u: Url)
    requires IsLoneShare(u)
    ensures Href(u) == Plain("share", Username).url
  {
    assert CANONICAL == "https" + "://" + WWW;
    assert PathOf(u) == "/" + "share";
  }

  /** Whatever was typed: if it names a target, and any address it was read as is
      well formed, the short query of that target is read as the same address,
      but for the two lost families. */
  lemma {:induction false} RoundTripOfText(raw: string, t: Target)
    requires Normalize(raw) == Some(t)
    requires BareTarget(WithoutAt(Trim(raw))).Some? || WellFormed(ParseUrl(Trim(raw)).value)
    ensures var r := Normalize(ShortQuery(t));
      (r.Some? && r.value.url == t.url) <==> !HidesHost(t) && !LosesSlashes(t)
  {
    var bare := WithoutAt(Trim(raw));
    if BareTarget(bare).Some? {
      BareComesBack(bare, t.kind);
    } else {
      RoundTripOfUrl(ParseUrl(Trim(raw)).value, t);
    }
  }

  /** Reading the short query of what a short query was read as changes the
      address no more, and nothing at all if the first reading kept it: the normal
      form is reached in one step. */
  lemma {:induction false} SecondReadingIsStable(u: Url, t: Target)
    requires WellFormed(u) && TargetOf(u) == Some(t) && !HidesHost(t)
    ensures var r := Normalize(ShortQuery(t));
      && r.Some? && Normalize(ShortQuery(r.value)).Some?
      && Normalize(ShortQuery(r.value)).value.url == r.value.url
      && (!LosesSlashes(t) ==> Normalize(ShortQuery(r.value)) == r)
  {
    RoundTripOfUrl(u, t);
    if LosesSlashes(t) {
      StrippedLinkIsStable(u, t);
    } else {
      SameShort(Normalize(ShortQuery(t)).value, t);
    }
  }

  lemma {:induction false} StrippedLinkIsStable(u: Url, t: Target)
    requires WellFormed(u) && TargetOf(u) == Some(t) && LosesSlashes(t)
    ensures var r := LinkOf(OnWww(Stripped(u.pieces)));
      Normalize(ShortQuery(r)).Some? && Normalize(ShortQuery(r)).value.url == r.url
  {
    LinksAreLinks(u, t);
    StartsCanonical(u);
    ShorterStart(Href(u));
    StrippedShares(u);
    var v := OnWww(Stripped(u.pieces));
    LinkIsRead(v);
    SlashesOfHref(v);
    if IsLoneShare(v) { LoneShare(v); }
  }

  lemma {:induction false} LinksAreLinks(u: Url, t: Target)
    requires WellFormed(u) && TargetOf(u) == Some(t) && t.kind.Link?
    ensures IsLink(u) && t == LinkOf(u)
  {
    if !IsLink(u) {
      PiecesHaveSegments(u.pieces);
      PathComesBack(Segments(u), OwnerParam(u.query), t);
    }
  }

  lemma {:induction false} StrippedShares(u: Url)
    requires WellFormed(u) && IsLink(u) && u.host == WWW
    ensures var v := OnWww(Stripped(u.pieces)); WellFormed(v) && IsLink(v) && v.pieces[0] != ""
  {
    WwwIsFacebook();
    StrippedFacts(u.pieces);
  }

  lemma {:induction false} SameShort(a: Target, b: Target)
    requires a.url == b.url
    ensures ShortQuery(a) == ShortQuery(b)
  {
  }

  /** The lost links: the text of a share link with its slash doubled. */
  lemma {:induction false} DoubledSlashIsLost(id: string)
    requires IsSegment(id)
    ensures var t, r := LinkOf(OnWww(["", "share", id])), LinkOf(OnWww(["share", id]));
      && t.url == CANONICAL + "//share/" + id && r.url == CANONICAL + "/share/" + id
      && Normalize(t.url) == Some(t) && LosesSlashes(t) && Normalize(ShortQuery(t)) == Some(r)
  {
    var u := OnWww(["", "share", id]);
    DoubledShare("share", id);
    DoubledText(id);
    SlashesOfHref(u);
    WwwHref(["share", id]);
    LinkIsRead(u);
    ReadHref(u);
  }

  lemma {:induction false} DoubledShare(share: string, id: string)
    requires share == "share" && IsSegment(id)
    ensures var u := OnWww(["", share, id]);
      WellFormed(u) && IsLink(u) && TargetOf(u) == Some(LinkOf(u)) && Stripped(u.pieces) == [share, id]
  {
    var pieces := ["", share, id];
    ShareIsSegment(share);
    SegmentsStay([share, id]);
    assert pieces[1..] == [share, id];
    OnWwwIsWellFormed(pieces);
  }

  lemma {:induction false} ShareIsSegment(share: string)
    requires share == "share"
    ensures IsSegment(share)
  {
    LettersOnly(share);
  }

  lemma {:induction false} DoubledText(id: string)
    ensures CANONICAL + "/" + Short(["share", id]) == CANONICAL + "/share/" + id
    ensures CANONICAL + "/" + Short(["", "share", id]) == CANONICAL + "//share/" + id
  {
    var rest := ["share", id];
    assert [""] + rest == ["", "share", id];
    ShortCons("", rest);
    JoinTwo("share", id);
    assert "" + "/" + Short(rest) == "/" + Short(rest);
    assert "/share/" == "/" + ("share" + "/") && "//share/" == "/" + ("/" + ("share" + "/"));
  }

  /** The lost user names: the page of `fb.com`. */
  lemma {:induction false} FbComIsLost(name: string)
    requires name == "fb.com"
    ensures var u := OnWww([name]);
      && WellFormed(u) && TargetOf(u) == Some(Plain(name, Username)) && HidesHost(Plain(name, Username))
      && Normalize(ShortQuery(Plain(name, Username))).None?
  {
    FbCom(name);
    NotReserved(name);
    HostNameIsLost(name);
  }

  lemma {:induction false} HostNameIsLost(name: string)
    requires IsUsername(name) && ToLower(name) == name && !IsNumeric(name) && name !in RESERVED
    requires !IsPhoto(name) && !IsDirectory(name) && Contains(name, ".com") && IsFacebookHost(name)
    ensures var u := OnWww([name]);
      && WellFormed(u) && TargetOf(u) == Some(Plain(name, Username)) && HidesHost(Plain(name, Username))
      && Normalize(ShortQuery(Plain(name, Username))).None?
  {
    FreeName(name);
    NameIsHidden(name);
    HiddenIsLost(name);
    NameIsTarget(name);
  }

  lemma {:induction false} HiddenIsLost(name: string)
    requires PathTarget([name], None) == Some(Plain(name, Username)) && HidesHost(Plain(name, Username))
    ensures Normalize(ShortQuery(Plain(name, Username))).None?
  {
    UsernameComesBack(name);
  }

  lemma {:induction false} NameIsTarget(name: string)
    requires PathTarget([name], None) == Some(Plain(name, Username))
    ensures WellFormed(OnWww([name])) && TargetOf(OnWww([name])) == Some(Plain(name, Username))
  {
    UsernameFacts(name);
    PlainFacts(name);
    NameOnWww(name);
    OnWwwIsWellFormed([name]);
  }

  lemma {:induction false} NameIsHidden(name: string)
    requires ToLower(name) == name && Contains(name, ".com") && IsFacebookHost(name)
    ensures HidesHost(Plain(name, Username))
  {
  }

  lemma {:induction false} OnWwwIsWellFormed(pieces: seq<string>)
    requires ArePieces(pieces)
    ensures WellFormed(OnWww(pieces))
  {
    WwwIsFacebook();
  }

  lemma {:induction false} FreeName(name: string)
    requires IsUsername(name) && ToLower(name) == name && !IsNumeric(name) && name !in RESERVED
    requires !IsPhoto(name) && !IsDirectory(name)
    ensures PathTarget([name], None) == Some(Plain(name, Username))
  {
  }

  lemma {:induction false} FbCom(name: string)
    requires name == "fb.com"
    ensures IsUsername(name) && ToLower(name) == name && Contains(name, ".com") && IsFacebookHost(name) &&
      IsSegment(name)
  {
    forall i | 0 <= i < |name| ensures 'a' <= name[i] <= 'z' || name[i] == '.' {}
    PlainFacts(name);
    assert OccursAt(name, ".com", 2);
    assert name[0] != "www."[0];
    assert FB_HOSTS[1] == name;
  }

  lemma {:induction false} NotReserved(name: string)
    requires name == "fb.com"
    ensures name !in RESERVED && !EndsWith(name, ".php") && !IsNumeric(name)
    ensures name != "photo" && name != "groups" && name != "people" && name != "pages" && name != "share"
  {
    assert name[2] == '.' && name[2..][1] == 'c';
    forall i | 0 <= i < |RESERVED| ensures RESERVED[i] != name {
      assert |RESERVED[i]| != 6 || RESERVED[i][2] != '.';
    }
  }
}

/** Which addresses are one owner's, and that only addresses of the site are
    looked up. */
module FacebookSite {
  import opened FacebookLookup
  import opened FacebookRoundTrip
  import opened JsCollections
  import opened JsText
  import opened Options

  // ------------------------------------------------- one owner, many addresses

  /** Which of the site's hosts an address names makes no difference, short-link
      hosts apart; nor do scheme, extra slashes and foreign parameters. */
  lemma {:induction false} HostDoesNotMatter(u: Url, v: Url)
    requires Segments(u) == Segments(v) && OwnerParam(u.query) == OwnerParam(v.query)
    requires !IsShortLinkHost(u.host) && !IsShortLinkHost(v.host)
    requires Segments(u) != [] ==> Segments(u)[0] != "share"
    ensures TargetOf(u) == TargetOf(v)
  {
  }

  /** A path below a user name is the owner's if and only if its next segment
      is one of the known sub-paths; nothing behind that is looked at. */
  lemma {:induction false} OwnerPathsAgree(name: string, tail: seq<string>, owner: Option<string>)
    requires PathTarget([name], None) == Some(Plain(name, Username)) && tail != []
    ensures PathTarget([name] + tail, owner) == PathTarget([name], None) <==> ToLower(tail[0]) in OWNER_SUBPATHS
    ensures PathTarget([name] + tail, owner) != PathTarget([name], None) ==> PathTarget([name] + tail, owner).None?
  {
    var parts := [name] + tail;
    assert parts[0] == name && parts[1] == tail[0];
    NameIsNoDirectory(name);
  }

  lemma {:induction false} NameIsNoDirectory(name: string)
    requires PathTarget([name], None) == Some(Plain(name, Username))
    ensures !IsDirectory(ToLower(name)) && !IsPhoto(ToLower(name))
  {
    var t := Plain(name, Username);
    if IsPhoto(ToLower(name)) { PhotoForm([name], None, t); }
  }

  /** An id typed bare, as a path, behind `/photo/` or at the end of a page's
      path is looked up at one address. */
  lemma {:induction false} NumberPathsAgree(id: string, middle: seq<string>)
    requires IsNumeric(id)
    ensures var url := CANONICAL + "/" + id;
      && BareTarget(id).Some? && BareTarget(id).value.url == url
      && PathTarget([id], None).Some? && PathTarget([id], None).value.url == url
      && PathTarget(["photo", id], None).Some? && PathTarget(["photo", id], None).value.url == url
      && PathTarget(["pages"] + middle + [id], None).Some? &&
        PathTarget(["pages"] + middle + [id], None).value.url == url
  {
    NumberIsNoWord(id);
    NumberBehindPhoto("photo", id);
    NumberBehindPages("pages", id, middle);
  }

  lemma {:induction false} NumberIsNoWord(id: string)
    requires IsNumeric(id)
    ensures PathTarget([id], None) == Some(Plain(id, Numeric))
  {
    assert IsDigit(id[0]) && ToLower(id)[0] == id[0];
    assert IsDigit(id[|id| - 4]) && ToLower(id)[|id| - 4] == id[|id| - 4];
    NotPhp(ToLower(id));
    forall i | 0 <= i < |RESERVED| ensures RESERVED[i] != ToLower(id) { assert !IsDigit(RESERVED[i][0]); }
  }

  lemma {:induction false} NumberBehindPhoto(head: string, id: string)
    requires head == "photo" && IsNumeric(id)
    ensures PathTarget([head, id], None) == Some(Plain(id, Numeric))
  {
    forall i | 0 <= i < |head| ensures 'a' <= head[i] <= 'z' {}
    assert ToLower(head) == head;
  }

  lemma {:induction false} NumberBehindPages(head: string, id: string, middle: seq<string>)
    requires head == "pages" && IsNumeric(id)
    ensures PathTarget([head] + middle + [id], None) == Some(Plain(id, Page))
  {
    DirectoryFacts(head);
    var parts := [head] + middle + [id];
    assert parts[0] == head && parts[|parts| - 1] == id;
  }

  // --------------------------------------------------------------- only the site

  /** The hosts of the site are the five roots and the names below them: cutting
      `www.` off first neither adds nor loses any. */
  lemma {:induction false} HostIsRootOrBelow(host: string)
    ensures IsFacebookHost(host) <==>
      exists i :: 0 <= i < |FB_HOSTS| && (host == FB_HOSTS[i] || EndsWith(host, "." + FB_HOSTS[i]))
  {
    if "www." <= host {
      forall i | 0 <= i < |FB_HOSTS|
        ensures host == FB_HOSTS[i] || EndsWith(host, "." + FB_HOSTS[i]) <==>
          host[4..] == FB_HOSTS[i] || EndsWith(host[4..], "." + FB_HOSTS[i])
      {
        assert FB_HOSTS[i][0] != 'w';
        BelowWww(host, FB_HOSTS[i]);
      }
    }
  }

  lemma {:induction false} BelowWww(host: string, root: string)
    requires "www." <= host && root != "" && root[0] != 'w'
    ensures host != root
    ensures EndsWith(host, "." + root) <==> host[4..] == root || EndsWith(host[4..], "." + root)
  {
    var h, t := host[4..], "." + root;
    assert host == "www." + h;
    if h == root { assert host[3..] == t; }
    if |t| <= |h| {
      assert h[|h| - |t|..] == host[|host| - |t|..];
    } else if EndsWith(host, t) {
      var p := |host| - |t|;
      assert host[p] == host[p..][0] == '.';
      assert host[p..][1..] == root && h == host[4..];
    }
  }

  lemma {:induction false} BeforeHasNot(s: string, c: char, d: char)
    ensures c !in Before(s, c)
    ensures d !in s ==> d !in Before(s, c)
  {
    if s != "" && s[0] != c { BeforeHasNot(s[1..], c, d); }
  }

  lemma {:induction false} BeforePrefix(a: string, b: string, c: char)
    requires c !in a
    ensures Before(a + b, c) == a + Before(b, c)
  {
    if a == "" {
      assert a + b == b;
    } else {
      assert (a + b)[1..] == a[1..] + b;
      BeforePrefix(a[1..], b, c);
      assert [a[0]] + (a[1..] + Before(b, c)) == a + Before(b, c);
    }
  }

  lemma {:induction false} SplitHasNot(s: string, c: char, d: char)
    requires d !in s
    ensures forall i :: 0 <= i < |Split(s, c)| ==> d !in Split(s, c)[i]
  {
    if s != "" { SplitHasNot(s[1..], c, d); }
  }

  /** Neither scheme nor host holds a character that ends it. */
  predicate IsClean(u: Url) {
    && ':' !in u.scheme && ToLower(u.scheme) == u.scheme
    && u.host != "" && '/' !in u.host && '?' !in u.host && '#' !in u.host && ToLower(u.host) == u.host
  }

  lemma {:induction false} RestIsClean(scheme: string, rest: string)
    requires ':' !in scheme && ToLower(scheme) == scheme && '#' !in rest
    ensures var u := ParseRest(scheme, rest); u.Some? ==> IsClean(u.value)
  {
    var body := Before(rest, '?');
    var parts := Split(body, '/');
    BeforeHasNot(rest, '?', '#');
    SplitHasNot(body, '/', '?');
    SplitHasNot(body, '/', '#');
  }

  lemma {:induction false} ParsedIsClean(s: string)
    ensures ParseCanonical(s).Some? ==> IsClean(ParseCanonical(s).value)
  {
    var scheme := Before(s, ':');
    if "://" <= s[|scheme|..] {
      BeforeHasNot(s, ':', ':');
      BeforeHasNot(s[|scheme| + 3..], '#', '#');
      RestIsClean(ToLower(scheme), Before(s[|scheme| + 3..], '#'));
    }
  }

  lemma {:induction false} CutScheme(scheme: string, body: string)
    requires ':' !in scheme
    ensures var s := scheme + "://" + body;
      Before(s, ':') == scheme && "://" <= s[|scheme|..] && s[|scheme| + 3..] == body
  {
    var s := scheme + "://" + body;
    assert s == scheme + [':'] + ("//" + body);
    BeforeAt(scheme, ':', "//" + body);
    assert s[|scheme|..] == "://" + body;
  }

  /** The host of a text that goes on with a slash. */
  lemma {:induction false} HostIsRead(scheme: string, host: string, more: string)
    requires ':' !in scheme && host != "" && '/' !in host && '?' !in host && '#' !in host && ToLower(host) == host
    ensures var u := ParseCanonical(scheme + "://" + (host + "/" + more)); u.Some? && u.value.host == host
  {
    var front := host + "/";
    CutScheme(scheme, host + "/" + more);
    BeforePrefix(front, more, '#');
    var rest := front + Before(more, '#');
    BeforePrefix(front, Before(more, '#'), '?');
    var tail := Before(Before(more, '#'), '?');
    assert front + tail == host + ['/'] + tail;
    SplitAt(host, '/', tail);
    assert Split(Before(rest, '?'), '/')[0] == host;
  }

  lemma {:induction false} HrefIsOnSite(u: Url)
    requires IsClean(u) && IsFacebookHost(u.host)
    ensures FacebookUrl(Href(u)).Some?
  {
    var more := PathOf(u)[1..];
    assert Href(u) == u.scheme + "://" + (u.host + "/" + more);
    HostIsRead(u.scheme, u.host, more);
  }

  lemma {:induction false} CanonicalIsOnSite(url: string)
    requires CANONICAL + "/" <= url
    ensures FacebookUrl(url).Some?
  {
    var more := url[|CANONICAL| + 1..];
    assert url == CANONICAL + "/" + more;
    assert CANONICAL == "https" + "://" + WWW;
    assert url == "https" + "://" + (WWW + "/" + more);
    WwwIsFacebook();
    UnderHost("https", WWW, more);
  }

  lemma {:induction false} UnderHost(scheme: string, host: string, more: string)
    requires IsScheme(scheme) && IsHostName(host) && IsFacebookHost(host)
    ensures FacebookUrl(scheme + "://" + (host + "/" + more)).Some?
  {
    LowerHost(host);
    PathFacts(host);
    HostIsRead(scheme, host, more);
  }

  lemma {:induction false} ReadIsOnSite(input: string)
    ensures ParseUrl(input).Some? ==> IsClean(ParseUrl(input).value) && IsFacebookHost(ParseUrl(input).value.host)
  {
    ParsedIsClean(input);
    ParsedIsClean("https://" + input);
    ParsedIsClean(CANONICAL + "/" + StripSlashes(input));
  }

  /** Whatever is typed, what is looked up is an address of the site: parsed once
      more, it names one of the site's hosts. It is the canonical `https` address
      unless the text was a link to be resolved, which keeps its own scheme. */
  lemma {:induction false} TargetsStayOnTheSite(raw: string)
    ensures var r := Normalize(raw);
      r.Some? ==> FacebookUrl(r.value.url).Some? && (CANONICAL + "/" <= r.value.url || r.value.kind.Link?)
  {
    var input := Trim(raw);
    var r := Normalize(raw);
    if r.Some? {
      if BareTarget(WithoutAt(input)).Some? {
        CanonicalIsOnSite(r.value.url);
      } else {
        var u := ParseUrl(input).value;
        ReadIsOnSite(input);
        if IsLink(u) {
          HrefIsOnSite(u);
        } else {
          PathIsCanonical(Segments(u), OwnerParam(u.query), r.value);
          CanonicalIsOnSite(r.value.url);
        }
      }
    }
  }

  /** A link is looked up under whatever scheme it was typed with: none is
      refused, and none is replaced. */
  lemma {:induction false} LinksKeepAnyScheme(u: Url)
    requires WellFormed(u) && u.query == [] && IsLink(u)
    ensures Normalize(Href(u)) == Some(LinkOf(u)) && LinkOf(u).url == u.scheme + "://" + u.host + PathOf(u)
  {
    ReadHref(u);
  }

  lemma {:induction false} PathIsCanonical(parts: seq<string>, owner: Option<string>, t: Target)
    requires parts != [] && PathTarget(parts, owner) == Some(t)
    ensures CANONICAL + "/" <= t.url
  {
    var head := ToLower(parts[0]);
    if IsPhoto(head) {
      PhotoForm(parts, owner, t);
    } else if head == "people" {
      PeopleShort(parts[1], parts[2]);
    } else if head == "pages" {
      if LastNumeric(parts).None? { PagesShort(parts[1..]); }
    }
  }}

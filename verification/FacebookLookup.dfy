/** The target normaliser of the Facebook id finder and its short printer
    (frontend/lib/facebook-lookup.ts), over URLs in canonical form: no port, no
    credentials, no dot segments, and segments of unreserved characters, on which
    percent-encoding and decoding do nothing. */
module FacebookLookup {
  import opened JsCollections
  import opened JsText
  import opened Options

  datatype Kind = Username | Numeric | Profile | Page | Group | People | Link

  datatype Target = Target(url: string, handle: string, kind: Kind)

  /** `pieces` is what stands between the slashes of the path, behind its first
      one: empty where two slashes meet and behind a final slash. */
  datatype Url = Url(scheme: string, host: string, pieces: seq<string>, query: seq<(string, string)>)

  const CANONICAL := "https://www.facebook.com"
  const WWW := "www.facebook.com"

  const FB_HOSTS: seq<string> := ["facebook.com", "fb.com", "fb.me", "fb.watch", "messenger.com"]

  const RESERVED: seq<string> := [
    "profile.php", "people", "pages", "groups", "events", "photo", "photo.php", "photos", "video", "videos",
    "watch", "reel", "reels", "share", "story.php", "permalink.php", "posts", "marketplace", "gaming",
    "login", "login.php", "home.php", "hashtag", "search", "stories", "help", "policies", "privacy",
    "settings", "messages", "notifications", "friends", "media", "l.php", "dialog", "plugins"]

  const OWNER_SUBPATHS: seq<string> := [
    "posts", "photos", "videos", "about", "friends", "reels", "reviews", "events", "community", "mentions",
    "photos_by", "map", "live", "services", "shop", "music"]

  // ------------------------------------------------------------- the few patterns

  predicate IsAlnum(c: char) { IsDigit(c) || 'a' <= c <= 'z' || 'A' <= c <= 'Z' }

  predicate IsUsername(s: string) {
    && 2 <= |s| <= 64 && IsAlnum(s[0]) && IsAlnum(s[|s| - 1])
    && forall i :: 0 <= i < |s| ==> IsAlnum(s[i]) || s[i] == '.'
  }

  predicate IsNumeric(s: string) { 5 <= |s| <= 20 && AllDigits(s) }

  predicate EndsWith(s: string, t: string) { |t| <= |s| && s[|s| - |t|..] == t }

  predicate OccursAt(s: string, t: string, i: int) { 0 <= i <= |s| - |t| && s[i..i + |t|] == t }

  predicate Contains(s: string, t: string) { exists i :: 0 <= i <= |s| - |t| && OccursAt(s, t, i) }

  predicate HasSpace(s: string) { exists i :: 0 <= i < |s| && IsSpace(s[i]) }

  /** `^[a-z][a-z0-9+.-]*://`, in any case. */
  predicate HasScheme(s: string) {
    var p := Before(s, ':');
    && "://" <= s[|p|..] && p != "" && IsAlnum(p[0]) && !IsDigit(p[0])
    && forall i :: 0 <= i < |p| ==> IsAlnum(p[i]) || p[i] in ['+', '.', '-']
  }

  // -------------------------------------------------------------------- the parser

  predicate IsFacebookHost(host: string) {
    var h := if "www." <= host then host[4..] else host;
    h in FB_HOSTS || exists i :: 0 <= i < |FB_HOSTS| && EndsWith(h, "." + FB_HOSTS[i])
  }

  predicate IsShortLinkHost(host: string) {
    host == "fb.me" || EndsWith(host, ".fb.me") || host == "fb.watch" || EndsWith(host, ".fb.watch")
  }

  function ParsePair(p: string): (string, string) { (Before(p, '='), Behind(p, '=')) }

  /** `new URL(s)`, for strings of the canonical form. */
  function ParseCanonical(s: string): Option<Url> {
    var scheme := Before(s, ':');
    if !("://" <= s[|scheme|..]) then None else ParseRest(ToLower(scheme), Before(s[|scheme| + 3..], '#'))
  }

  function ParseRest(scheme: string, rest: string): Option<Url> {
    var parts := Split(Before(rest, '?'), '/');
    if parts[0] == "" then None
    else Some(Url(scheme, ToLower(parts[0]), if |parts| > 1 then parts[1..] else [""], ParseQuery(Behind(rest, '?'))))
  }

  function ParseQuery(query: string): seq<(string, string)> {
    if query == "" then [] else MapSeq(ParsePair, Split(query, '&'))
  }

  function FacebookUrl(s: string): Option<Url> {
    var u := ParseCanonical(s);
    if u.Some? && IsFacebookHost(u.value.host) then u else None
  }

  function StripSlashes(s: string): string { if s != "" && s[0] == '/' then StripSlashes(s[1..]) else s }

  /** `input.split(/[/?#]/, 1)[0].toLowerCase()`. */
  function HeadOf(s: string): string { ToLower(Before(Before(Before(s, '#'), '?'), '/')) }

  function ParseUrl(input: string): Option<Url> {
    if HasScheme(input) then FacebookUrl(input)
    else
      var head := HeadOf(input);
      var asHost := if '.' in head && head !in RESERVED then FacebookUrl("https://" + input) else None;
      if asHost.Some? then asHost else FacebookUrl(CANONICAL + "/" + StripSlashes(input))
  }

  function PathOf(u: Url): string { "/" + Join(u.pieces, "/") }

  /** `segments(url)`: the pieces that are not empty. */
  function Segments(u: Url): seq<string> { Without(u.pieces, {""}) }

  /** The address without query and fragment; it keeps its empty pieces. */
  function Href(u: Url): string { u.scheme + "://" + u.host + PathOf(u) }

  function Param(query: seq<(string, string)>, name: string): Option<string> {
    if query == [] then None else if query[0].0 == name then Some(query[0].1) else Param(query[1..], name)
  }

  function OwnerParam(query: seq<(string, string)>): Option<string> {
    if Param(query, "id").Some? then Param(query, "id")
    else if Param(query, "owner_id").Some? then Param(query, "owner_id")
    else Param(query, "profile_id")
  }

  function LastNumeric(parts: seq<string>): Option<string> {
    if parts == [] then None
    else if IsNumeric(parts[|parts| - 1]) then Some(parts[|parts| - 1])
    else LastNumeric(parts[..|parts| - 1])
  }

  function Plain(name: string, kind: Kind): Target { Target(CANONICAL + "/" + name, name, kind) }

  /** The part of `normalizeFacebookTarget` behind `parseUrl`. */
  function TargetOf(u: Url): Option<Target> {
    var parts := Segments(u);
    if parts == [] then None
    else if IsShortLinkHost(u.host) || parts[0] == "share" then
      Some(Target(Href(u), u.host + "/" + Join(parts, "/"), Link))
    else PathTarget(parts, OwnerParam(u.query))
  }

  function PathTarget(parts: seq<string>, owner: Option<string>): Option<Target>
    requires parts != []
  {
    var head := ToLower(parts[0]);
    if EndsWith(head, ".php") || head == "photo" then
      if owner.Some? && IsNumeric(owner.value) then
        Some(Target(CANONICAL + "/profile.php?id=" + owner.value, "profile.php?id=" + owner.value, Profile))
      else if head == "photo" && |parts| > 1 && IsNumeric(parts[1]) then Some(Plain(parts[1], Numeric))
      else None
    else if head == "groups" && |parts| > 1 then Some(Plain("groups/" + parts[1], Group))
    else if head == "people" && |parts| > 2 && IsNumeric(parts[2]) then
      Some(Target(CANONICAL + "/people/" + parts[1] + "/" + parts[2] + "/", "people/\U{2026}/" + parts[2], People))
    else if head == "pages" then
      if LastNumeric(parts).Some? then Some(Plain(LastNumeric(parts).value, Page))
      else if |parts| > 1 then Some(Target(CANONICAL + "/pages/" + Join(parts[1..], "/"), "pages/" + parts[1], Page))
      else None
    else if head in RESERVED then None
    else if IsNumeric(parts[0]) then Some(Plain(parts[0], Numeric))
    else if !IsUsername(parts[0]) then None
    else if |parts| > 1 && ToLower(parts[1]) !in OWNER_SUBPATHS then None
    else Some(Plain(parts[0], Username))
  }

  /** The two bare forms: an id, or a user name that cannot be a host. */
  function BareTarget(bare: string): Option<Target> {
    if IsNumeric(bare) then Some(Plain(bare, Numeric))
    else if '/' !in bare && !Contains(bare, ".com") && IsUsername(bare) then Some(Plain(bare, Username))
    else None
  }

  function WithoutAt(s: string): string { if s != "" && s[0] == '@' then s[1..] else s }

  function Normalize(raw: string): Option<Target> {
    var input := Trim(raw);
    if input == "" || HasSpace(input) then None
    else if BareTarget(WithoutAt(input)).Some? then BareTarget(WithoutAt(input))
    else
      var u := ParseUrl(input);
      if u.None? then None else TargetOf(u.value)
  }

  function ShortQuery(t: Target): string {
    if CANONICAL + "/" <= t.url then t.url[|CANONICAL| + 1..] else t.url
  }
}

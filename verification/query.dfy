/** The `!q` query (src/message.rs): from a YouTube URL to the number of archived videos
    in the folder it belongs to.

    Fetching the channel page (`get_youtube_user`) and listing the archive (`ts ls`) are
    collaborators: the caller passes them in as functions from their argument to their
    result.

    URLs are read as the URL library reads them, restricted to what reaches it here: a URL
    on `https://www.youtube.com/` splits into a path (from the `/` after the host up to the
    first `?` or `#`) and a query (from that `?` up to the first `#`); a bare path such as
    `/c/name` has no scheme and cannot be parsed, and the source's `unwrap` then panics. */
module Query {
  import opened Errors
  import opened Numbers
  import opened Text
  import opened Http

  const YOUTUBE_ROOT: string := "https://www.youtube.com/"

  /** What the handler uses of a parsed URL. */
  datatype Url = Url(path: string, query: Option<string>)

  /** `url::Url::parse(url).unwrap()` on the URLs the handler parses. */
  function ParseUrl(s: string): (r: Result<Url>)
    ensures r.Ok? <==> StartsWith(s, YOUTUBE_ROOT)
    ensures r.Ok? ==> StartsWith(r.value.path, "/") && StartsWith(s, "https://www.youtube.com" + r.value.path)
    ensures r.Ok? ==> ReadsAs(s[|YOUTUBE_ROOT| - 1..], r.value)
    ensures r.Err? ==> r.error.Panic?
  {
    if !StartsWith(s, YOUTUBE_ROOT) then Err(Panic("relative URL without a base"))
    else
      var u := PathAndQuery(s[|YOUTUBE_ROOT| - 1..]);
      PathAfterHost(s, u);
      Ok(u)
  }

  /** The path read after the host starts with the host's closing `/`, and host and path
      begin the URL. */
  lemma PathAfterHost(s: string, u: Url)
    requires StartsWith(s, YOUTUBE_ROOT) && ReadsAs(s[|YOUTUBE_ROOT| - 1..], u)
    ensures StartsWith(u.path, "/") && StartsWith(s, "https://www.youtube.com" + u.path)
  {
    var host := "https://www.youtube.com";
    var afterHost := s[|host|..];
    assert YOUTUBE_ROOT == host + "/";
    assert s[..|host|] == host;
    assert afterHost[0] == '/';
    assert |u.path| > 0;
    assert u.path[0] == '/';
    assert s[..|host + u.path|] == s[..|host|] + afterHost[..|u.path|];
  }

  /** How the text after the host reads as a URL: the path runs up to the first `?` or
      `#`; a `?` there starts the query, which runs up to the first `#`; a `#` starts the
      fragment, which the handler never reads. */
  predicate ReadsAs(afterHost: string, u: Url)
  {
    var n := |u.path|;
    && StartsWith(afterHost, u.path)
    && !Contains(u.path, '?') && !Contains(u.path, '#')
    && (n == |afterHost| || afterHost[n] == '?' || afterHost[n] == '#')
    && (u.query.Some? <==> n < |afterHost| && afterHost[n] == '?')
    && (u.query.Some? ==> u.query.value == Before(afterHost[n + 1..], '#'))
  }

  /** The text after the host reads as one URL only, so `ReadsAs` fixes the parse. */
  lemma ReadsAsUnique(afterHost: string, u: Url, v: Url)
    requires ReadsAs(afterHost, u) && ReadsAs(afterHost, v)
    ensures u == v
  {
  }

  /** Path and query of the text after the host: cut off the fragment, then split at `?`. */
  function PathAndQuery(afterHost: string): (u: Url)
    ensures ReadsAs(afterHost, u)
  {
    var beforeFragment := Before(afterHost, '#');
    var path := Before(beforeFragment, '?');
    var n := |path|;
    SliceAvoids(beforeFragment, '#', 0, n);
    assert path == beforeFragment[..n];
    if n < |beforeFragment| then
      var query := beforeFragment[n + 1..];
      SliceAvoids(beforeFragment, '#', n + 1, |beforeFragment|);
      if |beforeFragment| == |afterHost| then
        assert afterHost[n + 1..] == query;
        BeforeAbsent(query, '#');
        Url(path, Some(query))
      else
        assert afterHost[n + 1..] == query + ['#'] + afterHost[|beforeFragment| + 1..];
        BeforeSeparator(query, '#', afterHost[|beforeFragment| + 1..]);
        Url(path, Some(query))
    else
      Url(path, None)
  }

  /* ---------- get_canonical_url ---------- */

  /** The canonical URL of a user's videos. */
  function UserVideosUrl(user: string): string
  {
    YOUTUBE_ROOT + "user/" + user + "/videos"
  }

  /** `get_canonical_url`, with `fetchUser` standing for `get_youtube_user`: a playlist URL
      is kept; a `/user/` URL must resolve to a user; a `/channel/` URL becomes its user's
      URL when it has one and is kept otherwise; any other URL becomes its bare path.  Only
      `/user/` and `/channel/` URLs are fetched, and a failed fetch is passed on. */
  function GetCanonicalUrl(url: string, fetchUser: string -> Result<Option<string>>): (r: Result<string>)
    ensures !StartsWith(url, YOUTUBE_ROOT) ==> r.Err? && r.error.Panic?
    ensures StartsWith(url, YOUTUBE_ROOT) ==>
      var path := ParseUrl(url).value.path;
      && (path == "/playlist" ==> r == Ok(url))
      && (StartsWith(path, "/user/") || StartsWith(path, "/channel/") ==>
            (fetchUser(url).Err? ==> r == Err(fetchUser(url).error))
            && (fetchUser(url).Ok? && fetchUser(url).value.Some? ==> r == Ok(UserVideosUrl(fetchUser(url).value.value))))
      && (StartsWith(path, "/user/") && fetchUser(url) == Ok(None) ==>
            r == Err(Message("Canonical URL for " + url + " does not have a /user/")))
      && (StartsWith(path, "/channel/") && fetchUser(url) == Ok(None) ==> r == Ok(url))
      && (path != "/playlist" && !StartsWith(path, "/user/") && !StartsWith(path, "/channel/") ==> r == Ok(path))
  {
    match ParseUrl(url)
    case Err(e) => Err(e)
    case Ok(parsed) =>
      var path := parsed.path;
      PathKindsDistinct(path);
      if path == "/playlist" then Ok(url)
      else if StartsWith(path, "/user/") then
        match fetchUser(url)
        case Err(e) => Err(e)
        case Ok(Some(user)) => Ok(UserVideosUrl(user))
        case Ok(None) => Err(Message("Canonical URL for " + url + " does not have a /user/"))
      else if StartsWith(path, "/channel/") then
        match fetchUser(url)
        case Err(e) => Err(e)
        case Ok(Some(user)) => Ok(UserVideosUrl(user))
        case Ok(None) => Ok(url)
      else Ok(path)
  }

  /** A path is at most one of a playlist, a user and a channel path. */
  lemma PathKindsDistinct(path: string)
    ensures path == "/playlist" ==> !StartsWith(path, "/user/") && !StartsWith(path, "/channel/")
    ensures StartsWith(path, "/user/") ==> !StartsWith(path, "/channel/")
  {
    if StartsWith(path, "/user/") { assert path[1] == 'u'; }
    if StartsWith(path, "/channel/") { assert path[1] == 'c'; }
  }

  /* ---------- folder_for_url ---------- */

  /** `\A[-_A-Za-z0-9]+\z`: a non-empty name of letters, digits, `-` and `_`. */
  predicate IsFolderChar(c: char)
  {
    ('a' <= c <= 'z') || ('A' <= c <= 'Z') || ('0' <= c <= '9') || c == '-' || c == '_'
  }

  predicate IsFolderName(s: string)
  {
    |s| > 0 && forall i :: 0 <= i < |s| ==> IsFolderChar(s[i])
  }

  /** `query_pairs()`: the `&`-separated, non-empty parts of the query, each split at its
      first `=` (a part without `=` has an empty value). */
  function QueryPairs(parts: seq<string>): seq<(string, string)>
  {
    if |parts| == 0 then []
    else if |parts[0]| == 0 then QueryPairs(parts[1..])
    else
      var key := Before(parts[0], '=');
      var value := if |key| < |parts[0]| then parts[0][|key| + 1..] else "";
      [(key, value)] + QueryPairs(parts[1..])
  }

  /** Looking a key up in the pairs collected into a `HashMap`: the last pair wins. */
  function LastValue(pairs: seq<(string, string)>, key: string): (r: Option<string>)
    ensures r.Some? <==> exists i :: 0 <= i < |pairs| && pairs[i].0 == key
    ensures r.Some? ==> exists i :: (0 <= i < |pairs| && pairs[i] == (key, r.value)
      && forall j :: i < j < |pairs| ==> pairs[j].0 != key)
  {
    if |pairs| == 0 then None
    else
      var last := pairs[|pairs| - 1];
      if last.0 == key then Some(last.1)
      else
        var r := LastValue(pairs[..|pairs| - 1], key);
        assert forall i :: 0 <= i < |pairs| - 1 ==> pairs[..|pairs| - 1][i] == pairs[i];
        r
  }

  /** The value of `key` in a URL's query, as the handler reads it. */
  function QueryValue(query: Option<string>, key: string): Option<string>
  {
    match query
    case None => None
    case Some(q) => LastValue(QueryPairs(Split(q, '&')), key)
  }

  /** The folder a URL names before the guard: the third `/`-separated piece of a `/user/`
      or `/channel/` path, or the `playlist` query value of a `/playlist` URL. */
  function FolderCandidate(parsed: Url): Option<string>
  {
    if parsed.path == "/playlist" then QueryValue(parsed.query, "playlist")
    else if StartsWith(parsed.path, "/user/") || StartsWith(parsed.path, "/channel/")
    then
      var n := if StartsWith(parsed.path, "/user/") then 4 else 7;
      FolderPiece(parsed.path, n);
      Some(Split(parsed.path, '/')[2])
    else None
  }

  /** In a path `/<word>/<rest>`, the third piece of the split at `/` is the part of
      `<rest>` before its first `/`. */
  lemma FolderPiece(path: string, n: nat)
    requires n + 2 <= |path| && path[0] == '/' && path[n + 1] == '/'
    requires forall i :: 1 <= i <= n ==> path[i] != '/'
    ensures |Split(path, '/')| >= 3
    ensures Split(path, '/')[2] == Before(path[n + 2..], '/')
  {
    var word := path[1..n + 1];
    var rest := path[n + 2..];
    assert !Contains(word, '/') by {
      forall i | 0 <= i < |word| ensures word[i] != '/' { assert word[i] == path[i + 1]; }
    }
    assert path == "" + ['/'] + (word + ['/'] + rest);
    SplitPiece("", word + ['/'] + rest, '/');
    SplitPiece(word, rest, '/');
    SplitFirst(rest, '/');
  }

  /** `folder_for_url`: the folder a URL names, kept only when it is a safe folder name.
      Parsing a bare path panics. */
  function FolderForUrl(url: string): (r: Result<Option<string>>)
    ensures r.Err? <==> !StartsWith(url, YOUTUBE_ROOT)
    ensures r.Err? ==> r.error.Panic?
    ensures r.Ok? && r.value.Some? ==> IsFolderName(r.value.value)
    ensures r.Ok? ==> r.value == Guarded(FolderCandidate(ParseUrl(url).value))
  {
    match ParseUrl(url)
    case Err(e) => Err(e)
    case Ok(parsed) =>
      match FolderCandidate(parsed)
      case Some(f) => if IsFolderName(f) then Ok(Some(f)) else Ok(None)
      case None => Ok(None)
  }

  /* ---------- folders of well-formed URLs ---------- */

  /** The path of a URL that has neither a query nor a fragment is everything after the host. */
  lemma PlainPath(rest: string)
    requires !Contains(rest, '?') && !Contains(rest, '#')
    ensures ParseUrl(YOUTUBE_ROOT + rest).Ok?
    ensures ParseUrl(YOUTUBE_ROOT + rest).value.path == "/" + rest
  {
    var url := YOUTUBE_ROOT + rest;
    var afterHost := url[|YOUTUBE_ROOT| - 1..];
    assert afterHost == "/" + rest;
    assert !Contains(afterHost, '#') by {
      forall i | 0 <= i < |afterHost| ensures afterHost[i] != '#' {
        if i >= 1 { assert afterHost[i] == rest[i - 1]; }
      }
    }
    assert !Contains(afterHost, '?') by {
      forall i | 0 <= i < |afterHost| ensures afterHost[i] != '?' {
        if i >= 1 { assert afterHost[i] == rest[i - 1]; }
      }
    }
    assert Before(afterHost, '#') == afterHost;
    assert Before(afterHost, '?') == afterHost;
  }

  /** A user or channel URL whose name is followed by nothing or by more path. */
  lemma FolderOfNamedUrl(kind: string, name: string, tail: string)
    requires kind == "user" || kind == "channel"
    requires !Contains(name, '/')
    requires |tail| == 0 || tail[0] == '/'
    requires !Contains(name + tail, '?') && !Contains(name + tail, '#')
    ensures FolderForUrl(YOUTUBE_ROOT + kind + "/" + name + tail)
      == Ok(if IsFolderName(name) then Some(name) else None)
  {
    var url := YOUTUBE_ROOT + kind + "/" + name + tail;
    NamedUrlPath(kind, name, tail);
    NamedPathFolder(kind, name, tail, ParseUrl(url).value.query);
    FolderFromCandidate(url, name);
  }

  lemma NamedUrlPath(kind: string, name: string, tail: string)
    requires !Contains(name + tail, '?') && !Contains(name + tail, '#')
    requires !Contains(kind, '?') && !Contains(kind, '#')
    ensures StartsWith(YOUTUBE_ROOT + kind + "/" + name + tail, YOUTUBE_ROOT)
    ensures ParseUrl(YOUTUBE_ROOT + kind + "/" + name + tail).value.path == "/" + kind + "/" + name + tail
  {
    var rest := kind + "/" + name + tail;
    assert YOUTUBE_ROOT + kind + "/" + name + tail == YOUTUBE_ROOT + rest;
    assert "/" + kind + "/" + name + tail == "/" + rest;
    assert !Contains(rest, '?') && !Contains(rest, '#') by {
      forall i | 0 <= i < |rest| ensures rest[i] != '?' && rest[i] != '#' {
        if i < |kind| {
          assert rest[i] == kind[i];
        } else if i >= |kind| + 1 {
          assert rest[i] == (name + tail)[i - |kind| - 1];
        }
      }
    }
    PlainPath(rest);
  }

  lemma NamedPathFolder(kind: string, name: string, tail: string, query: Option<string>)
    requires kind == "user" || kind == "channel"
    requires !Contains(name, '/')
    requires |tail| == 0 || tail[0] == '/'
    ensures FolderCandidate(Url("/" + kind + "/" + name + tail, query)) == Some(name)
  {
    var prefix := "/" + kind + "/";
    var path := prefix + (name + tail);
    assert "/" + kind + "/" + name + tail == path;
    assert path[..|prefix|] == prefix;
    assert prefix == "/user/" || prefix == "/channel/";
    assert StartsWith(path, "/user/") || StartsWith(path, "/channel/");
    assert path[|prefix|..] == name + tail;
    assert (if StartsWith(path, "/user/") then 6 else 9) == |prefix| by {
      assert path[1] == kind[0];
    }
    KindFolder(path, query);
    if |tail| > 0 {
      assert name + tail == name + ['/'] + tail[1..];
      BeforeSeparator(name, '/', tail[1..]);
    } else {
      assert path[|prefix|..] == name;
      BeforeAbsent(name, '/');
    }
  }

  lemma FolderFromCandidate(url: string, f: string)
    requires StartsWith(url, YOUTUBE_ROOT) && FolderCandidate(ParseUrl(url).value) == Some(f)
    ensures FolderForUrl(url) == Ok(Guarded(Some(f)))
  {
  }

  /** The folder candidate of a `/user/` or `/channel/` path is what follows the second
      slash, up to the next. */
  lemma KindFolder(path: string, query: Option<string>)
    requires StartsWith(path, "/user/") || StartsWith(path, "/channel/")
    ensures var n := if StartsWith(path, "/user/") then 6 else 9;
      FolderCandidate(Url(path, query)) == Some(Before(path[n..], '/'))
  {
    PathKindsDistinct(path);
    var n := if StartsWith(path, "/user/") then 4 else 7;
    FolderPiece(path, n);
  }

  /** The canonical URL of a user names that user's folder. */
  lemma FolderOfUserVideos(user: string)
    requires IsFolderName(user)
    ensures FolderForUrl(UserVideosUrl(user)) == Ok(Some(user))
  {
    assert !Contains(user, '/') && !Contains(user + "/videos", '?') && !Contains(user + "/videos", '#') by {
      assert forall i :: 0 <= i < |user| ==> IsFolderChar(user[i]);
      forall i | 0 <= i < |user + "/videos"|
        ensures (user + "/videos")[i] != '?' && (user + "/videos")[i] != '#'
      {
        if i < |user| { assert (user + "/videos")[i] == user[i]; }
      }
    }
    assert UserVideosUrl(user) == YOUTUBE_ROOT + "user" + "/" + user + "/videos";
    FolderOfNamedUrl("user", user, "/videos");
  }

  /** A query naming only the playlist gives its identifier. */
  lemma PlaylistQueryValue(id: string)
    requires !Contains(id, '&')
    ensures QueryValue(Some("playlist=" + id), "playlist") == Some(id)
  {
    var q := "playlist=" + id;
    assert !Contains(q, '&') by {
      forall i | 0 <= i < |q| ensures q[i] != '&' {
        if i >= 9 { assert q[i] == id[i - 9]; }
      }
    }
    SplitSingle(q, '&');
    assert q[8] == '=';
    assert q == "playlist" + ['='] + id;
    BeforeSeparator("playlist", '=', id);
    assert q[9..] == id;
    assert QueryPairs([q]) == [("playlist", id)];
  }

  /** A playlist URL whose query names only the playlist. */
  lemma FolderOfPlaylistUrl(id: string)
    requires !Contains(id, '&') && !Contains(id, '#')
    ensures FolderForUrl(YOUTUBE_ROOT + "playlist?playlist=" + id)
      == Ok(if IsFolderName(id) then Some(id) else None)
  {
    var url := YOUTUBE_ROOT + "playlist?playlist=" + id;
    PlaylistUrlParts(id);
    PlaylistQueryValue(id);
    assert FolderCandidate(ParseUrl(url).value) == Some(id);
    FolderFromCandidate(url, id);
  }

  lemma PlaylistUrlParts(id: string)
    requires !Contains(id, '#')
    ensures ParseUrl(YOUTUBE_ROOT + "playlist?playlist=" + id)
      == Ok(Url("/playlist", Some("playlist=" + id)))
  {
    var url := YOUTUBE_ROOT + "playlist?playlist=" + id;
    var afterHost := "/playlist" + ['?'] + ("playlist=" + id);
    assert url == YOUTUBE_ROOT + "playlist?playlist=" + id;
    assert url[|YOUTUBE_ROOT| - 1..] == afterHost;
    assert !Contains(afterHost, '#') by {
      forall i | 0 <= i < |afterHost| ensures afterHost[i] != '#' {
        if i >= 19 { assert afterHost[i] == id[i - 19]; }
      }
    }
    BeforeAbsent(afterHost, '#');
    BeforeSeparator("/playlist", '?', "playlist=" + id);
    assert afterHost[10..] == "playlist=" + id;
  }

  /** A playlist URL whose query has only a `list` key names no folder: the folder is
      read from the `playlist` key alone. */
  lemma FolderOfListQuery(id: string)
    requires !Contains(id, '&') && !Contains(id, '#')
    ensures FolderForUrl(YOUTUBE_ROOT + "playlist?list=" + id) == Ok(None)
  {
    var url := YOUTUBE_ROOT + "playlist?list=" + id;
    ListUrlParts(id);
    ListQueryValue(id);
    assert FolderCandidate(ParseUrl(url).value) == None;
  }

  lemma ListUrlParts(id: string)
    requires !Contains(id, '#')
    ensures ParseUrl(YOUTUBE_ROOT + "playlist?list=" + id) == Ok(Url("/playlist", Some("list=" + id)))
  {
    var url := YOUTUBE_ROOT + "playlist?list=" + id;
    var afterHost := "/playlist" + ['?'] + ("list=" + id);
    assert url[|YOUTUBE_ROOT| - 1..] == afterHost;
    assert !Contains(afterHost, '#') by {
      forall i | 0 <= i < |afterHost| ensures afterHost[i] != '#' {
        if i >= 15 { assert afterHost[i] == id[i - 15]; }
      }
    }
    BeforeAbsent(afterHost, '#');
    BeforeSeparator("/playlist", '?', "list=" + id);
    assert afterHost[10..] == "list=" + id;
  }

  lemma ListQueryValue(id: string)
    requires !Contains(id, '&')
    ensures QueryValue(Some("list=" + id), "playlist") == None
  {
    var q := "list=" + id;
    assert !Contains(q, '&') by {
      forall i | 0 <= i < |q| ensures q[i] != '&' {
        if i >= 5 { assert q[i] == id[i - 5]; }
      }
    }
    SplitSingle(q, '&');
    assert q == "list" + ['='] + id;
    BeforeSeparator("list", '=', id);
    assert QueryPairs([q]) == [("list", id)];
  }

  /** The three ways `folder_for_url` finds a folder, each behind the name guard. */
  lemma FolderRules(url: string)
    requires StartsWith(url, YOUTUBE_ROOT)
    ensures var parsed := ParseUrl(url).value;
      && (parsed.path == "/playlist" ==>
            FolderForUrl(url) == Ok(Guarded(QueryValue(parsed.query, "playlist"))))
      && (StartsWith(parsed.path, "/user/") ==>
            FolderForUrl(url) == Ok(Guarded(Some(Before(parsed.path[6..], '/')))))
      && (StartsWith(parsed.path, "/channel/") ==>
            FolderForUrl(url) == Ok(Guarded(Some(Before(parsed.path[9..], '/')))))
      && ((parsed.path != "/playlist" && !StartsWith(parsed.path, "/user/")
           && !StartsWith(parsed.path, "/channel/")) ==> FolderForUrl(url) == Ok(None))
  {
    var parsed := ParseUrl(url).value;
    PathKindsDistinct(parsed.path);
    if StartsWith(parsed.path, "/user/") || StartsWith(parsed.path, "/channel/") {
      KindFolder(parsed.path, parsed.query);
    }
  }

  /** The name guard of `folder_for_url`. */
  function Guarded(candidate: Option<string>): Option<string>
  {
    if candidate.Some? && IsFolderName(candidate.value) then candidate else None
  }

  /* ---------- get_query ---------- */

  /** The names the listing filter accepts as videos. */
  const VIDEO_EXTENSIONS: set<string> := {"mp4", "webm", "flv", "mkv", "video"}

  /** `name.rsplitn(1, '.')`: splitting into at most one piece leaves the name whole. */
  function RSplitOnce(name: string): seq<string>
  {
    [name]
  }

  /** The listing filter: the last piece of `rsplitn(1, '.')` must be a video extension. */
  predicate IsVideoEntry(name: string)
  {
    var pieces := RSplitOnce(name);
    pieces[|pieces| - 1] in VIDEO_EXTENSIONS
  }

  /** The filter compares the whole file name with the extensions. */
  lemma VideoEntryIsWholeName(name: string)
    ensures IsVideoEntry(name) <==> name in VIDEO_EXTENSIONS
  {
  }

  /** A file name with a dot in it is never counted, whatever its extension. */
  lemma DottedNameNotCounted(base: string, ext: string)
    ensures !IsVideoEntry(base + "." + ext)
  {
    var name := base + "." + ext;
    assert name[|base|] == '.';
    assert name !in VIDEO_EXTENSIONS by {
      forall e | e in VIDEO_EXTENSIONS ensures !Contains(e, '.') {
      }
      assert Contains(name, '.');
    }
  }

  /** The listing entries the filter keeps, in listing order. */
  function VideoEntries(listing: seq<string>): (r: seq<string>)
    ensures forall x :: x in r <==> x in listing && IsVideoEntry(x)
    ensures |r| <= |listing|
  {
    if |listing| == 0 then []
    else (if IsVideoEntry(listing[0]) then [listing[0]] else []) + VideoEntries(listing[1..])
  }

  /** Each accepted name is kept as often as it is listed, and no other name is kept, so
      the count in the reply is the number of accepted listing entries. */
  lemma {:induction false} VideoEntriesCount(listing: seq<string>)
    ensures forall x ::
      multiset(VideoEntries(listing))[x] == if IsVideoEntry(x) then multiset(listing)[x] else 0
  {
    if |listing| > 0 {
      VideoEntriesCount(listing[1..]);
      assert listing == [listing[0]] + listing[1..];
      var head := if IsVideoEntry(listing[0]) then [listing[0]] else [];
      assert VideoEntries(listing) == head + VideoEntries(listing[1..]);
      assert multiset(VideoEntries(listing)) == multiset(head) + multiset(VideoEntries(listing[1..]));
      assert multiset(listing) == multiset([listing[0]]) + multiset(listing[1..]);
    }
  }

  /** Filtering distributes over concatenation, so the kept entries keep their order. */
  lemma {:induction false} VideoEntriesAppend(a: seq<string>, b: seq<string>)
    ensures VideoEntries(a + b) == VideoEntries(a) + VideoEntries(b)
  {
    if |a| == 0 {
      assert a + b == b;
    } else {
      var head := if IsVideoEntry(a[0]) then [a[0]] else [];
      assert (a + b)[0] == a[0] && (a + b)[1..] == a[1..] + b;
      assert VideoEntries(a + b) == head + VideoEntries(a[1..] + b);
      assert VideoEntries(a) == head + VideoEntries(a[1..]);
      VideoEntriesAppend(a[1..], b);
      assert head + (VideoEntries(a[1..]) + VideoEntries(b)) == (head + VideoEntries(a[1..])) + VideoEntries(b);
    }
  }

  /** The `!q` reply: the folder, the number of videos and, if any, the last one listed. */
  function QueryReply(folder: string, videos: seq<string>): string
  {
    folder + " has " + NatToString(|videos|) + " videos"
      + (if |videos| > 0 then ", latest " + videos[|videos| - 1] else "")
  }

  /** Reading a reply back: folder, count and latest video. */
  function ParseQueryReply(reply: string): Option<(string, nat, Option<string>)>
  {
    var folder := Before(reply, ' ');
    var rest := reply[|folder|..];
    if !StartsWith(rest, " has ") then None
    else
      match ParseCount(rest[5..])
      case None => None
      case Some(counted) => Some((folder, counted.0, counted.1))
  }

  /** Reading back the part of a reply after "has ". */
  function ParseCount(s: string): Option<(nat, Option<string>)>
  {
    var k := DigitRun(s);
    var afterCount := s[k..];
    if k == 0 || !StartsWith(afterCount, " videos") then None
    else
      var tail := afterCount[7..];
      var count := DecimalValue(s[..k]);
      if |tail| == 0 then Some((count, None))
      else if StartsWith(tail, ", latest ") then Some((count, Some(tail[9..])))
      else None
  }

  lemma CountRoundTrip(n: nat, latest: Option<string>)
    ensures ParseCount(NatToString(n) + " videos" + (if latest.Some? then ", latest " + latest.value else ""))
      == Some((n, latest))
  {
    var suffix := if latest.Some? then ", latest " + latest.value else "";
    var s := NatToString(n) + " videos" + suffix;
    CountPrefix(n, suffix);
    var tail := s[DigitRun(s)..][7..];
    assert tail == suffix;
    if latest.Some? {
      assert StartsWith(tail, ", latest ");
      assert tail[9..] == latest.value;
    }
  }

  /** The count and the word after it are read back from the front of the reply. */
  lemma CountPrefix(n: nat, suffix: string)
    ensures var s := NatToString(n) + " videos" + suffix;
      && DigitRun(s) == |NatToString(n)| > 0
      && DecimalValue(s[..DigitRun(s)]) == n
      && StartsWith(s[DigitRun(s)..], " videos")
      && s[DigitRun(s)..][7..] == suffix
  {
    var digits := NatToString(n);
    var rest := " videos" + suffix;
    assert digits + " videos" + suffix == digits + rest;
    WordAfterDigits(digits, rest);
    DigitRunAppend(digits, rest);
    DecimalRoundTrip(n);
  }

  lemma WordAfterDigits(digits: string, rest: string)
    ensures (digits + rest)[..|digits|] == digits
    ensures (digits + rest)[|digits|..] == rest
  {
  }

  /** A reply states the folder, the number of videos and the last one, and can be read back. */
  lemma QueryReplyRoundTrip(folder: string, videos: seq<string>)
    requires IsFolderName(folder)
    ensures ParseQueryReply(QueryReply(folder, videos))
      == Some((folder, |videos|, if |videos| > 0 then Some(videos[|videos| - 1]) else None))
  {
    var latest := if |videos| > 0 then Some(videos[|videos| - 1]) else None;
    var afterHas := NatToString(|videos|) + " videos" + (if latest.Some? then ", latest " + latest.value else "");
    assert QueryReply(folder, videos) == folder + " has " + afterHas;
    ReplyFolder(folder, afterHas);
    CountRoundTrip(|videos|, latest);
  }

  /** The folder and the word after it are read back from the front of the reply. */
  lemma ReplyFolder(folder: string, afterHas: string)
    requires IsFolderName(folder)
    ensures var reply := folder + " has " + afterHas;
      && Before(reply, ' ') == folder
      && StartsWith(reply[|folder|..], " has ")
      && reply[|folder|..][5..] == afterHas
  {
    var reply := folder + " has " + afterHas;
    assert reply == folder + [' '] + ("has " + afterHas);
    assert !Contains(folder, ' ') by {
      assert forall i :: 0 <= i < |folder| ==> IsFolderChar(folder[i]);
    }
    BeforeSeparator(folder, ' ', "has " + afterHas);
    assert reply[|folder|..] == " has " + afterHas;
  }

  /** `get_query`.  URLs off YouTube and `/watch?` URLs are refused before anything is
      fetched; otherwise the URL is made canonical (`fetchUser` stands for
      `get_youtube_user`), its folder is found, and the folder's listing (`listFiles` stands
      for the standard output of `ts ls`, or the error of running it) is filtered and
      summarised. */
  function GetQuery(url: string, fetchUser: string -> Result<Option<string>>,
                    listFiles: string -> Result<string>): (r: Result<string>)
    ensures !StartsWith(url, YOUTUBE_ROOT) ==>
      r == Err(Message("URL must start with https://www.youtube.com/, was " + url))
    ensures StartsWith(url, YOUTUBE_ROOT + "watch?") ==>
      r == Err(Message("!q on /watch? URL not yet implemented"))
    ensures StartsWith(url, YOUTUBE_ROOT) && !StartsWith(url, YOUTUBE_ROOT + "watch?") ==>
      var canonical := GetCanonicalUrl(url, fetchUser);
      && (canonical.Err? ==> r == Err(canonical.error))
      && (canonical.Ok? && FolderForUrl(canonical.value) == Ok(None) ==>
            r == Err(Message("Could not get folder for URL " + canonical.value)))
      && (canonical.Ok? && FolderForUrl(canonical.value).Err? ==> r.Err? && r.error.Panic?)
      && (canonical.Ok? && FolderForUrl(canonical.value).Ok? && FolderForUrl(canonical.value).value.Some? ==>
            var folder := FolderForUrl(canonical.value).value.value;
            && (listFiles(folder).Ok? ==>
                  r == Ok(QueryReply(folder, VideoEntries(Lines(listFiles(folder).value)))))
            && (listFiles(folder).Err? ==>
                  r == Err(Message("Internal error listing files for " + canonical.value + ": "
                                   + ErrorText(listFiles(folder).error)))))
    ensures r.Ok? ==> exists canonical, folder :: (
      && GetCanonicalUrl(url, fetchUser) == Ok(canonical)
      && FolderForUrl(canonical) == Ok(Some(folder))
      && listFiles(folder).Ok?
      && r.value == QueryReply(folder, VideoEntries(Lines(listFiles(folder).value))))
  {
    if !StartsWith(url, YOUTUBE_ROOT) then
      Err(Message("URL must start with https://www.youtube.com/, was " + url))
    else if StartsWith(url, YOUTUBE_ROOT + "watch?") then
      Err(Message("!q on /watch? URL not yet implemented"))
    else
      match GetCanonicalUrl(url, fetchUser)
      case Err(e) => Err(e)
      case Ok(canonical) =>
        match FolderForUrl(canonical)
        case Err(e) => Err(e)
        case Ok(None) => Err(Message("Could not get folder for URL " + canonical))
        case Ok(Some(folder)) =>
          match listFiles(folder)
          case Err(e) =>
            Err(Message("Internal error listing files for " + canonical + ": " + ErrorText(e)))
          case Ok(stdout) =>
            Ok(QueryReply(folder, VideoEntries(Lines(stdout))))
  }

  /** A URL on YouTube whose path is neither a playlist, a user nor a channel is turned
      into its bare path, which cannot be parsed again: the query panics. */
  lemma OtherPathPanics(url: string, fetchUser: string -> Result<Option<string>>,
                        listFiles: string -> Result<string>)
    requires StartsWith(url, YOUTUBE_ROOT) && !StartsWith(url, YOUTUBE_ROOT + "watch?")
    requires var path := ParseUrl(url).value.path;
      path != "/playlist" && !StartsWith(path, "/user/") && !StartsWith(path, "/channel/")
    ensures GetQuery(url, fetchUser, listFiles).Err?
    ensures GetQuery(url, fetchUser, listFiles).error.Panic?
  {
    var path := ParseUrl(url).value.path;
    assert GetCanonicalUrl(url, fetchUser) == Ok(path);
    BarePathNotUrl(path);
    var folder := FolderForUrl(path);
    assert folder.Err?;
  }

  /** A bare path is not a URL on YouTube. */
  lemma BarePathNotUrl(path: string)
    requires StartsWith(path, "/")
    ensures !StartsWith(path, YOUTUBE_ROOT)
  {
    assert YOUTUBE_ROOT[0] == 'h';
  }

  /** A user URL whose user is found and whose folder lists fine is answered with that
      user's count of videos. */
  lemma UserQuery(url: string, user: string, fetchUser: string -> Result<Option<string>>,
                  listFiles: string -> Result<string>)
    requires StartsWith(url, YOUTUBE_ROOT) && StartsWith(ParseUrl(url).value.path, "/user/")
    requires fetchUser(url) == Ok(Some(user)) && IsFolderName(user)
    requires listFiles(user).Ok?
    ensures GetQuery(url, fetchUser, listFiles)
      == Ok(QueryReply(user, VideoEntries(Lines(listFiles(user).value))))
  {
    UserPathNotWatch(url, ParseUrl(url).value.path);
    FolderOfUserVideos(user);
  }

  /** A `/user/` URL is not a `/watch?` URL. */
  lemma UserPathNotWatch(url: string, path: string)
    requires StartsWith(url, "https://www.youtube.com" + path) && StartsWith(path, "/user/")
    ensures !StartsWith(url, YOUTUBE_ROOT + "watch?")
  {
    var host := "https://www.youtube.com";
    assert url[..|host + path|] == host + path;
    assert url[24] == (host + path)[24] == path[1] == 'u';
    assert (YOUTUBE_ROOT + "watch?")[24] == 'w';
  }
}

/** Extraction of a user name and a channel identifier from a fetched YouTube page
    (src/http.rs).  The fetch itself (`contents_for_url`, a subprocess) is left to the
    caller, who passes in its result.

    The source's three regular expressions are fixed, so they are restated here as explicit
    matchers with the regex engine's leftmost-first semantics: the leftmost start position
    that admits a match wins, and at that position a lazy `.+?` takes the shortest filler.
    An unescaped `.` in a pattern (as in `www.youtube.com`) matches any character except a
    newline; `[^"]` matches any character except a double quote, newlines included. */
module Http {
  import opened Errors
  import opened Text

  /** One position of a fixed part of a pattern. */
  datatype Atom = Lit(c: char) | AnyButNewline

  predicate AtomMatches(a: Atom, c: char)
  {
    match a
    case Lit(l) => c == l
    case AnyButNewline => c != '\n'
  }

  function Literal(s: string): (p: seq<Atom>)
    ensures |p| == |s|
    ensures forall i :: 0 <= i < |s| ==> p[i] == Lit(s[i])
  {
    seq(|s|, i requires 0 <= i < |s| => Lit(s[i]))
  }

  /** The fixed pattern `pat` matches the text at position `i`. */
  predicate PatternAt(s: string, i: nat, pat: seq<Atom>)
  {
    i + |pat| <= |s| && forall j :: 0 <= j < |pat| ==> AtomMatches(pat[j], s[i + j])
  }

  /** What a `([^"]+)` group can capture. */
  predicate IsCapture(u: string) { |u| > 0 && !Contains(u, '"') }

  /** `<link itemprop="url" href="http://www.youtube.com/user/`, dots unescaped. */
  function UserPrefix(): seq<Atom>
  {
    Literal("<link itemprop=\"url\" href=\"http://www") + [AnyButNewline]
      + Literal("youtube") + [AnyButNewline] + Literal("com/user/")
  }

  /** `<meta itemprop="channelId" content="`. */
  function MetaPrefix(): seq<Atom>
  {
    Literal("<meta itemprop=\"channelId\" content=\"")
  }

  /* ---------- patterns of the form  prefix ([^"]+) ">  ---------- */

  /** `pre` + `u` + `">` occurs at position `k`. */
  predicate QuotedAt(s: string, k: nat, pre: seq<Atom>, u: string)
  {
    && PatternAt(s, k, pre)
    && k + |pre| + |u| + 2 <= |s|
    && s[k + |pre|..k + |pre| + |u|] == u
    && s[k + |pre| + |u|] == '"'
    && s[k + |pre| + |u| + 1] == '>'
  }

  /** The match of `pre ([^"]+)">` starting exactly at `k`, if any: the group runs up to the
      first quote after the prefix, and that quote must be followed by `>`. */
  function QuotedCaptureAt(s: string, k: nat, pre: seq<Atom>): (r: Option<string>)
    ensures r.Some? ==> IsCapture(r.value) && QuotedAt(s, k, pre, r.value)
    ensures forall u :: IsCapture(u) && QuotedAt(s, k, pre, u) ==> r == Some(u)
  {
    if !PatternAt(s, k, pre) then None
    else
      QuotedEndsAtFirstQuote(s, k, pre);
      var q := k + |pre|;
      match IndexOf(s, '"', q)
      case None => None
      case Some(j) =>
        if j > q && j + 1 < |s| && s[j + 1] == '>' then
          var u := s[q..j];
          assert !Contains(u, '"') by {
            forall t | 0 <= t < |u| ensures u[t] != '"' { assert u[t] == s[q + t]; }
          }
          Some(u)
        else
          None
  }

  /** Any capture at `k` ends at the first quote after the prefix. */
  lemma QuotedEndsAtFirstQuote(s: string, k: nat, pre: seq<Atom>)
    ensures forall v :: IsCapture(v) && QuotedAt(s, k, pre, v) ==>
      IndexOf(s, '"', k + |pre|) == Some(k + |pre| + |v|)
  {
    forall v | IsCapture(v) && QuotedAt(s, k, pre, v)
      ensures IndexOf(s, '"', k + |pre|) == Some(k + |pre| + |v|)
    {
      FirstQuoteAfterCapture(s, k + |pre|, v);
    }
  }

  /** A quote-free group followed by a quote: that quote is the first one after the group's
      start. */
  lemma FirstQuoteAfterCapture(s: string, q: nat, v: string)
    requires IsCapture(v) && q + |v| < |s| && s[q..q + |v|] == v && s[q + |v|] == '"'
    ensures IndexOf(s, '"', q) == Some(q + |v|)
  {
    forall t | q <= t < q + |v| ensures s[t] != '"' {
      assert s[t] == v[t - q];
    }
  }

  /** The leftmost match of `pre ([^"]+)">` at or after `from`, with its start. */
  function FirstQuoted(s: string, pre: seq<Atom>, from: nat): (r: Option<(nat, string)>)
    requires from <= |s| + 1
    ensures r.Some? ==> from <= r.value.0 && IsCapture(r.value.1) && QuotedAt(s, r.value.0, pre, r.value.1)
    ensures r.Some? ==> forall k, u :: from <= k < r.value.0 && IsCapture(u) ==> !QuotedAt(s, k, pre, u)
    ensures r.None? ==> forall k, u :: from <= k && IsCapture(u) ==> !QuotedAt(s, k, pre, u)
    decreases |s| + 1 - from
  {
    if from == |s| + 1 then None
    else
      match QuotedCaptureAt(s, from, pre)
      case Some(u) => Some((from, u))
      case None => FirstQuoted(s, pre, from + 1)
  }

  /** `parse_user`: the group of the leftmost match of the user-link pattern. */
  function ParseUser(page: string): (r: Option<string>)
    ensures r.Some? ==> IsCapture(r.value)
    ensures r.Some? ==> exists k :: (QuotedAt(page, k, UserPrefix(), r.value)
      && forall k', u :: k' < k && IsCapture(u) ==> !QuotedAt(page, k', UserPrefix(), u))
    ensures r.None? <==> forall k: nat, u :: IsCapture(u) ==> !QuotedAt(page, k, UserPrefix(), u)
  {
    match FirstQuoted(page, UserPrefix(), 0)
    case Some((k, u)) => Some(u)
    case None => None
  }

  /* ---------- the player-configuration pattern ---------- */

  /** ` ytplayer = `. */
  function PlayerPrefix(): seq<Atom> { Literal(" ytplayer = ") }

  /** `\"channelId\":\"`, with literal backslashes. */
  function ChannelIdKey(): seq<Atom> { Literal("\\\"channelId\\\":\\\"") }

  /** `\"channelId\":\"` + `u` + `\"` occurs at position `p`. */
  predicate KeyedAt(s: string, p: nat, u: string)
  {
    PatternAt(s, p, ChannelIdKey()) && EscapedQuoteAfter(s, p + |ChannelIdKey()|, u)
  }

  /** `u` + `\"` occurs at position `q`. */
  predicate EscapedQuoteAfter(s: string, q: nat, u: string)
  {
    && q + |u| + 2 <= |s|
    && s[q..q + |u|] == u
    && s[q + |u|] == '\\'
    && s[q + |u| + 1] == '"'
  }

  /** The match of `\\"channelId\\":\\"([^"]+)\\"` starting exactly at `p`: the greedy group
      runs to the first quote and gives back the backslash before it. */
  function KeyedCaptureAt(s: string, p: nat): (r: Option<string>)
    ensures r.Some? ==> IsCapture(r.value) && KeyedAt(s, p, r.value)
    ensures forall u :: IsCapture(u) && KeyedAt(s, p, u) ==> r == Some(u)
  {
    if !PatternAt(s, p, ChannelIdKey()) then None
    else
      var q := p + |ChannelIdKey()|;
      match EscapedCaptureAt(s, q)
      case Some(u) => Some(u)
      case None => None
  }

  /** The group `([^"]+)` followed by `\"` at `q`: it runs to the first quote, less the
      backslash before that quote. */
  function EscapedCaptureAt(s: string, q: nat): (r: Option<string>)
    ensures r.Some? ==> IsCapture(r.value) && EscapedQuoteAfter(s, q, r.value)
    ensures forall u :: IsCapture(u) && EscapedQuoteAfter(s, q, u) ==> r == Some(u)
  {
    if q > |s| then None
    else
      EscapedEndsBeforeFirstQuote(s, q);
      match IndexOf(s, '"', q)
      case None => None
      case Some(j) =>
        if j >= q + 2 && s[j - 1] == '\\' then
          var u := s[q..j - 1];
          assert !Contains(u, '"') by {
            forall t | 0 <= t < |u| ensures u[t] != '"' { assert u[t] == s[q + t]; }
          }
          Some(u)
        else
          None
  }

  /** Any escaped-quote capture at `q` ends just before the first quote after `q`. */
  lemma EscapedEndsBeforeFirstQuote(s: string, q: nat)
    requires q <= |s|
    ensures forall v :: IsCapture(v) && EscapedQuoteAfter(s, q, v) ==>
      IndexOf(s, '"', q) == Some(q + |v| + 1)
  {
    forall v | IsCapture(v) && EscapedQuoteAfter(s, q, v)
      ensures IndexOf(s, '"', q) == Some(q + |v| + 1)
    {
      assert s[q..q + |v| + 1] == v + ['\\'];
      FirstQuoteAfterCapture(s, q, v + ['\\']);
    }
  }

  /** The player pattern matches at `i` with a filler of `n` characters and group `u`. */
  predicate PlayerAt(s: string, i: nat, n: nat, u: string)
  {
    var f := i + |PlayerPrefix()|;
    && PatternAt(s, i, PlayerPrefix())
    && n >= 1 && f + n <= |s|
    && (forall t :: f <= t < f + n ==> s[t] != '\n')
    && KeyedAt(s, f + n, u)
  }

  /** The lazy `.+?`: try fillers of `n`, `n + 1`, ... characters after the prefix, never
      past a newline, and take the first after which the rest of the pattern matches.  The
      result is the filler length and the group. */
  function LazyFiller(s: string, i: nat, n: nat): (r: Option<(nat, string)>)
    requires PatternAt(s, i, PlayerPrefix()) && n >= 1 && i + |PlayerPrefix()| + n <= |s| + 1
    requires forall t :: i + |PlayerPrefix()| <= t < i + |PlayerPrefix()| + n - 1 ==> s[t] != '\n'
    ensures r.Some? ==> n <= r.value.0 && IsCapture(r.value.1) && PlayerAt(s, i, r.value.0, r.value.1)
    ensures r.Some? ==> forall m, u :: n <= m < r.value.0 && IsCapture(u) ==> !PlayerAt(s, i, m, u)
    ensures r.None? ==> forall m, u :: n <= m && IsCapture(u) ==> !PlayerAt(s, i, m, u)
    decreases |s| - n
  {
    var f := i + |PlayerPrefix()|;
    if f + n > |s| then None
    else if s[f + n - 1] == '\n' then
      None
    else
      match KeyedCaptureAt(s, f + n)
      case Some(u) => Some((n, u))
      case None =>
        assert forall t :: f <= t < f + n ==> s[t] != '\n' by {
          forall t | f <= t < f + n ensures s[t] != '\n' {
            if t < f + n - 1 { } else { assert t == f + n - 1; }
          }
        }
        LazyFiller(s, i, n + 1)
  }

  /** The leftmost match of the player pattern at or after `from`: its start, its filler
      length and its group. */
  function FirstPlayer(s: string, from: nat): (r: Option<(nat, nat, string)>)
    requires from <= |s| + 1
    ensures r.Some? ==> from <= r.value.0 && IsCapture(r.value.2) && PlayerAt(s, r.value.0, r.value.1, r.value.2)
    ensures r.Some? ==> forall k, m, u :: from <= k < r.value.0 && IsCapture(u) ==> !PlayerAt(s, k, m, u)
    ensures r.Some? ==> forall m: nat, u :: m < r.value.1 && IsCapture(u) ==> !PlayerAt(s, r.value.0, m, u)
    ensures r.None? ==> forall k, m, u :: from <= k && IsCapture(u) ==> !PlayerAt(s, k, m, u)
    decreases |s| + 1 - from
  {
    if from == |s| + 1 then None
    else if !PatternAt(s, from, PlayerPrefix()) then
      NoPlayerAt(s, from);
      var r := FirstPlayer(s, from + 1);
      ShiftStart(s, from, r);
      r
    else
      match LazyFiller(s, from, 1)
      case Some((m, u)) => Some((from, m, u))
      case None =>
        NoPlayerAt(s, from);
        var r := FirstPlayer(s, from + 1);
        ShiftStart(s, from, r);
        r
  }

  /** A search from `from + 1` stands for a search from `from` when nothing matches at `from`. */
  lemma ShiftStart(s: string, from: nat, r: Option<(nat, nat, string)>)
    requires forall m, u :: IsCapture(u) ==> !PlayerAt(s, from, m, u)
    requires r.Some? ==> forall k, m, u :: from + 1 <= k < r.value.0 && IsCapture(u) ==> !PlayerAt(s, k, m, u)
    requires r.None? ==> forall k, m, u :: from + 1 <= k && IsCapture(u) ==> !PlayerAt(s, k, m, u)
    ensures r.Some? ==> forall k, m, u :: from <= k < r.value.0 && IsCapture(u) ==> !PlayerAt(s, k, m, u)
    ensures r.None? ==> forall k, m, u :: from <= k && IsCapture(u) ==> !PlayerAt(s, k, m, u)
  {
  }

  /** No player match starts at `i` when the prefix is missing there or no filler works. */
  lemma NoPlayerAt(s: string, i: nat)
    requires !PatternAt(s, i, PlayerPrefix())
      || (i + |PlayerPrefix()| + 1 <= |s| + 1 && PatternAt(s, i, PlayerPrefix()) && LazyFiller(s, i, 1).None?)
    ensures forall m, u :: IsCapture(u) ==> !PlayerAt(s, i, m, u)
  {
  }

  /** `parse_channel`: the group of the meta tag if it occurs anywhere, else the group of the
      player configuration, else nothing.  Either way the identifier is non-empty and has no
      quote. */
  function ParseChannel(page: string): (r: Option<string>)
    ensures r.Some? ==> IsCapture(r.value)
    ensures FirstQuoted(page, MetaPrefix(), 0).Some? ==> r == Some(FirstQuoted(page, MetaPrefix(), 0).value.1)
    ensures FirstQuoted(page, MetaPrefix(), 0).None? ==>
      (r.Some? <==> FirstPlayer(page, 0).Some?)
      && (r.Some? ==> r.value == FirstPlayer(page, 0).value.2)
    ensures r.None? <==>
      (forall k: nat, u :: IsCapture(u) ==> !QuotedAt(page, k, MetaPrefix(), u))
      && (forall k, m, u :: IsCapture(u) ==> !PlayerAt(page, k, m, u))
  {
    match FirstQuoted(page, MetaPrefix(), 0)
    case Some((k, c)) => Some(c)
    case None =>
      match FirstPlayer(page, 0)
      case Some((k, m, c)) => Some(c)
      case None => None
  }

  /** `get_youtube_user`, given the result of fetching the page at its URL: a failed fetch
      is passed on, and a page without the user link is not an error. */
  function GetYoutubeUser(fetched: Result<string>): (r: Result<Option<string>>)
    ensures fetched.Err? ==> r == Err(fetched.error)
    ensures fetched.Ok? ==> r.Ok? && (r.value.None? <==>
      forall k: nat, u :: IsCapture(u) ==> !QuotedAt(fetched.value, k, UserPrefix(), u))
    ensures fetched.Ok? && r.value.Some? ==> IsCapture(r.value.value)
  {
    match fetched
    case Err(e) => Err(e)
    case Ok(page) => Ok(ParseUser(page))
  }

  /** `get_youtube_channel`, given the URL and the result of fetching its page: a page
      without a channel identifier is an error naming the URL. */
  function GetYoutubeChannel(url: string, fetched: Result<string>): (r: Result<string>)
    ensures fetched.Err? ==> r == Err(fetched.error)
    ensures fetched.Ok? && ParseChannel(fetched.value).None? ==>
      r == Err(Message("Could not find channel identifier in " + url))
    ensures r.Ok? ==> fetched.Ok? && IsCapture(r.value) && ParseChannel(fetched.value) == Some(r.value)
  {
    match fetched
    case Err(e) => Err(e)
    case Ok(page) =>
      match ParseChannel(page)
      case Some(c) => Ok(c)
      case None => Err(Message("Could not find channel identifier in " + url))
  }
}

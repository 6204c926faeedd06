/** The `!status` report (src/message.rs): the running downloader sessions, read from the
    text `tmux list-sessions -F '#{session_created} #S'` prints, newest first with the
    time each has been running.  Running tmux and reading the clock are left to the caller,
    who passes in the listing and the current time. */
module Status {
  import opened Errors
  import opened Numbers
  import opened Text
  import opened Duration

  /** `DownloaderSession`: a tmux session of a downloader, named after its folder. */
  datatype Session = Session(identifier: string, startTime: U64)

  /** The prefix of the tmux session names of downloaders. */
  const SESSION_PREFIX: string := "YouTube-"

  /** The time-stamp part of a listing line: the text before its first space. */
  function StampOf(line: string): string
  {
    match IndexOf(line, ' ', 0)
    case Some(sp) => line[..sp]
    case None => line
  }

  /** One line of the listing.  The text before the first space must be a u64 and a space
      must follow it, or the handler panics (`unwrap`); a session whose name lacks the
      prefix belongs to something else and is skipped. */
  function ParseSessionLine(line: string): (r: Result<Option<Session>>)
    ensures r.Err? ==> r.error.Panic?
    ensures r.Err? <==> ParseU64(StampOf(line)).None? || !Contains(line, ' ')
  {
    var space := IndexOf(line, ' ', 0);
    match ParseU64(StampOf(line))
    case None => Err(Panic("session start time is not a u64"))
    case Some(t) =>
      if space.None? then Err(Panic("session line has no name"))
      else
        var name := line[space.value + 1..];
        if StartsWith(name, SESSION_PREFIX) then Ok(Some(Session(name[|SESSION_PREFIX|..], t)))
        else Ok(None)
  }

  /** `get_downloader_sessions` after tmux has run: the downloader sessions of the listing
      in listing order; one bad line makes the whole call panic. */
  function ParseSessions(text: string): (r: Result<seq<Session>>)
    ensures r.Err? ==> r.error.Panic?
  {
    ParseLines(Lines(text))
  }

  function ParseLines(lines: seq<string>): (r: Result<seq<Session>>)
    ensures r.Err? <==> exists i :: 0 <= i < |lines| && ParseSessionLine(lines[i]).Err?
    ensures r.Err? ==> r.error.Panic?
  {
    if |lines| == 0 then Ok([])
    else
      match ParseSessionLine(lines[0])
      case Err(e) => Err(e)
      case Ok(first) =>
        var rest := ParseLines(lines[1..]);
        assert (exists i :: 1 <= i < |lines| && ParseSessionLine(lines[i]).Err?)
          <==> (exists i :: 0 <= i < |lines[1..]| && ParseSessionLine(lines[1..][i]).Err?) by {
          forall i | 1 <= i < |lines| ensures lines[i] == lines[1..][i - 1] { }
        }
        match rest
        case Err(e) => Err(e)
        case Ok(sessions) =>
          match first
          case Some(s) => Ok([s] + sessions)
          case None => Ok(sessions)
  }

  /* ---------- the listing as tmux writes it ---------- */

  /** A tmux session: its creation time and its name. */
  datatype Listed = Listed(created: U64, name: string)

  /** The line `#{session_created} #S` gives for a session. */
  function ListedLine(l: Listed): string
  {
    NatToString(l.created) + " " + l.name
  }

  /** The downloader sessions among tmux sessions, with the prefix removed from each name. */
  function Downloaders(ls: seq<Listed>): seq<Session>
  {
    if |ls| == 0 then []
    else if StartsWith(ls[0].name, SESSION_PREFIX)
    then [Session(ls[0].name[|SESSION_PREFIX|..], ls[0].created)] + Downloaders(ls[1..])
    else Downloaders(ls[1..])
  }

  /** A session name tmux can list on one line. */
  predicate ListableName(name: string) { IsLine(name) && |name| > 0 }

  lemma ParseListedLine(l: Listed)
    ensures ParseSessionLine(ListedLine(l)) ==
      if StartsWith(l.name, SESSION_PREFIX)
      then Ok(Some(Session(l.name[|SESSION_PREFIX|..], l.created)))
      else Ok(None)
  {
    var d := NatToString(l.created);
    var line := ListedLine(l);
    assert line[..|d|] == d;
    assert line[|d|] == ' ';
    assert forall k :: 0 <= k < |d| ==> line[k] != ' ' by {
      forall k | 0 <= k < |d| ensures line[k] != ' ' { assert line[k] == d[k]; }
    }
    assert IndexOf(line, ' ', 0) == Some(|d|);
    assert line[|d| + 1..] == l.name;
    ParseFormatted(l.created);
  }

  /** Reading a listing tmux wrote gives exactly its downloader sessions, prefixes removed,
      in listing order; sessions of other programs are dropped. */
  lemma {:induction false} ParseListing(ls: seq<Listed>)
    requires forall i :: 0 <= i < |ls| ==> ListableName(ls[i].name)
    ensures ParseSessions(Unlines(ListedLines(ls))) == Ok(Downloaders(ls))
  {
    var lines := ListedLines(ls);
    assert forall i :: 0 <= i < |lines| ==> IsLine(lines[i]) by {
      forall i | 0 <= i < |lines| ensures IsLine(lines[i]) {
        ListedLineIsLine(ls[i]);
      }
    }
    LinesUnlines(lines);
    ParseListedLines(ls);
  }

  function ListedLines(ls: seq<Listed>): (r: seq<string>)
    ensures |r| == |ls| && forall i :: 0 <= i < |ls| ==> r[i] == ListedLine(ls[i])
  {
    seq(|ls|, i requires 0 <= i < |ls| => ListedLine(ls[i]))
  }

  lemma ListedLineIsLine(l: Listed)
    requires ListableName(l.name)
    ensures IsLine(ListedLine(l))
  {
    var line := ListedLine(l);
    var d := NatToString(l.created);
    assert line == d + " " + l.name;
    assert line[|line| - 1] == l.name[|l.name| - 1];
    assert !Contains(line, '\n') by {
      forall k | 0 <= k < |line| ensures line[k] != '\n' {
        if k < |d| { assert line[k] == d[k]; }
        else if k > |d| { assert line[k] == l.name[k - |d| - 1]; }
      }
    }
  }

  lemma {:induction false} ParseListedLines(ls: seq<Listed>)
    ensures ParseLines(ListedLines(ls)) == Ok(Downloaders(ls))
  {
    if |ls| > 0 {
      ParseListedLine(ls[0]);
      assert ListedLines(ls)[1..] == ListedLines(ls[1..]);
      ParseListedLines(ls[1..]);
    }
  }

  /** The shape of the documented example, `1000 YouTube-abc` then `2000 unrelated-session`:
      a downloader line and an unrelated line give the one downloader session. */
  lemma ParseListingExample(t1: U64, id: string, t2: U64, other: string)
    requires IsLine(id) && ListableName(other) && !StartsWith(other, SESSION_PREFIX)
    ensures ParseSessions(NatToString(t1) + " " + SESSION_PREFIX + id + "\n" + NatToString(t2) + " " + other + "\n")
      == Ok([Session(id, t1)])
  {
    var ls := [Listed(t1, SESSION_PREFIX + id), Listed(t2, other)];
    PrefixedName(id);
    ExampleText(ls, id, other);
    ExampleDownloaders(ls, id);
    ParseListing(ls);
  }

  lemma PrefixedName(id: string)
    requires IsLine(id)
    ensures ListableName(SESSION_PREFIX + id)
    ensures StartsWith(SESSION_PREFIX + id, SESSION_PREFIX) && (SESSION_PREFIX + id)[|SESSION_PREFIX|..] == id
  {
    var named := SESSION_PREFIX + id;
    assert named[..|SESSION_PREFIX|] == SESSION_PREFIX && named[|SESSION_PREFIX|..] == id;
    assert named[|named| - 1] == if |id| > 0 then id[|id| - 1] else '-';
    assert !Contains(named, '\n') by {
      forall k | 0 <= k < |named| ensures named[k] != '\n' {
        if k >= |SESSION_PREFIX| { assert named[k] == id[k - |SESSION_PREFIX|]; }
      }
    }
  }

  lemma ExampleText(ls: seq<Listed>, id: string, other: string)
    requires |ls| == 2 && ls[0].name == SESSION_PREFIX + id && ls[1].name == other
    ensures Unlines(ListedLines(ls)) ==
      NatToString(ls[0].created) + " " + SESSION_PREFIX + id + "\n" + NatToString(ls[1].created) + " " + other + "\n"
  {
    var lines := ListedLines(ls);
    assert Unlines(lines[2..]) == "";
    assert Unlines(lines[1..]) == lines[1] + "\n";
    assert Unlines(lines) == lines[0] + "\n" + (lines[1] + "\n");
  }

  lemma ExampleDownloaders(ls: seq<Listed>, id: string)
    requires |ls| == 2 && ls[0].name == SESSION_PREFIX + id && !StartsWith(ls[1].name, SESSION_PREFIX)
    requires StartsWith(SESSION_PREFIX + id, SESSION_PREFIX) && (SESSION_PREFIX + id)[|SESSION_PREFIX|..] == id
    ensures Downloaders(ls) == [Session(id, ls[0].created)]
  {
    assert Downloaders(ls[2..]) == [];
    assert Downloaders(ls[1..]) == [];
  }

  /* ---------- ordering and the report ---------- */

  predicate Ascending(s: seq<Session>)
  {
    forall i, j :: 0 <= i < j < |s| ==> s[i].startTime <= s[j].startTime
  }

  predicate Descending(s: seq<Session>)
  {
    forall i, j :: 0 <= i < j < |s| ==> s[i].startTime >= s[j].startTime
  }

  /** The sessions of `s` started at time `t`, in order. */
  function StartedAt(s: seq<Session>, t: nat): seq<Session>
  {
    if |s| == 0 then []
    else (if s[0].startTime == t then [s[0]] else []) + StartedAt(s[1..], t)
  }

  function Reverse<T>(s: seq<T>): (r: seq<T>)
    ensures |r| == |s| && forall i :: 0 <= i < |s| ==> r[i] == s[|s| - 1 - i]
  {
    if |s| == 0 then [] else Reverse(s[1..]) + [s[0]]
  }

  /** Insertion of `x` in front of the first session that did not start before it. */
  function InsertByStart(x: Session, sorted: seq<Session>): (r: seq<Session>)
    ensures multiset(r) == multiset(sorted) + multiset{x}
  {
    if |sorted| == 0 || x.startTime <= sorted[0].startTime then [x] + sorted
    else
      assert sorted == [sorted[0]] + sorted[1..];
      [sorted[0]] + InsertByStart(x, sorted[1..])
  }

  predicate StartNoEarlier(s: seq<Session>, t: nat)
  {
    forall i :: 0 <= i < |s| ==> t <= s[i].startTime
  }

  lemma {:induction false} InsertBound(x: Session, sorted: seq<Session>, t: nat)
    requires StartNoEarlier(sorted, t) && t <= x.startTime
    ensures StartNoEarlier(InsertByStart(x, sorted), t)
  {
    if !(|sorted| == 0 || x.startTime <= sorted[0].startTime) {
      InsertBound(x, sorted[1..], t);
    }
  }

  lemma {:induction false} InsertAscending(x: Session, sorted: seq<Session>)
    requires Ascending(sorted)
    ensures Ascending(InsertByStart(x, sorted))
  {
    if !(|sorted| == 0 || x.startTime <= sorted[0].startTime) {
      InsertAscending(x, sorted[1..]);
      InsertBound(x, sorted[1..], sorted[0].startTime);
    }
  }

  /** `sort_by_key(|session| session.start_time)`: a stable sort, oldest first. */
  function SortByStartTime(s: seq<Session>): (r: seq<Session>)
    ensures Ascending(r) && multiset(r) == multiset(s)
  {
    if |s| == 0 then []
    else
      assert s == [s[0]] + s[1..];
      InsertAscending(s[0], SortByStartTime(s[1..]));
      InsertByStart(s[0], SortByStartTime(s[1..]))
  }

  lemma {:induction false} InsertStartedAt(x: Session, sorted: seq<Session>, t: nat)
    requires Ascending(sorted)
    ensures StartedAt(InsertByStart(x, sorted), t)
      == (if x.startTime == t then [x] else []) + StartedAt(sorted, t)
  {
    if |sorted| == 0 || x.startTime <= sorted[0].startTime {
      assert ([x] + sorted)[1..] == sorted;
    } else {
      InsertStartedAt(x, sorted[1..], t);
      assert ([sorted[0]] + InsertByStart(x, sorted[1..]))[1..] == InsertByStart(x, sorted[1..]);
    }
  }

  /** The sort is stable: sessions that started at the same time keep their listing order. */
  lemma {:induction false} SortStable(s: seq<Session>, t: nat)
    ensures StartedAt(SortByStartTime(s), t) == StartedAt(s, t)
  {
    if |s| > 0 {
      SortStable(s[1..], t);
      InsertStartedAt(s[0], SortByStartTime(s[1..]), t);
    }
  }

  lemma {:induction false} StartedAtAppend(a: seq<Session>, b: seq<Session>, t: nat)
    ensures StartedAt(a + b, t) == StartedAt(a, t) + StartedAt(b, t)
  {
    if |a| > 0 {
      assert (a + b)[1..] == a[1..] + b;
      StartedAtAppend(a[1..], b, t);
    } else {
      assert a + b == b;
    }
  }

  lemma {:induction false} StartedAtReverse(s: seq<Session>, t: nat)
    ensures StartedAt(Reverse(s), t) == Reverse(StartedAt(s, t))
  {
    if |s| > 0 {
      StartedAtReverse(s[1..], t);
      StartedAtAppend(Reverse(s[1..]), [s[0]], t);
      assert StartedAt([s[0]], t) == if s[0].startTime == t then [s[0]] else [];
      var f := StartedAt(s[1..], t);
      if s[0].startTime == t {
        assert Reverse([s[0]] + f) == Reverse(f) + [s[0]] by {
          assert ([s[0]] + f)[1..] == f;
        }
      } else {
        assert StartedAt(s, t) == f;
      }
    }
  }

  /** The order of the report: `sort_by_key` on the start time, then `reverse`. */
  function NewestFirst(s: seq<Session>): (r: seq<Session>)
    ensures Descending(r)
    ensures multiset(r) == multiset(s)
  {
    var sorted := SortByStartTime(s);
    ReverseMultiset(sorted);
    Reverse(sorted)
  }

  lemma {:induction false} ReverseMultiset<T>(s: seq<T>)
    ensures multiset(Reverse(s)) == multiset(s)
  {
    if |s| > 0 {
      ReverseMultiset(s[1..]);
      assert s == [s[0]] + s[1..];
    }
  }

  /** Sessions that started at the same time are reported in reverse listing order. */
  lemma NewestFirstTies(s: seq<Session>, t: nat)
    ensures StartedAt(NewestFirst(s), t) == Reverse(StartedAt(s, t))
  {
    StartedAtReverse(SortByStartTime(s), t);
    SortStable(s, t);
  }

  /** One entry of the report: `"{identifier} ({duration})"`. */
  function Entry(s: Session, now: U64): string
    requires s.startTime <= now
  {
    s.identifier + " (" + ShorthandDuration(s.startTime, now) + ")"
  }

  function Entries(s: seq<Session>, now: U64): (r: seq<string>)
    requires forall i :: 0 <= i < |s| ==> s[i].startTime <= now
    ensures |r| == |s| && forall i :: 0 <= i < |s| ==> r[i] == Entry(s[i], now)
  {
    seq(|s|, i requires 0 <= i < |s| => Entry(s[i], now))
  }

  /** Reordering the sessions does not change whether all of them started by `now`. */
  lemma StartedByNow(ordered: seq<Session>, sessions: seq<Session>, now: U64)
    requires multiset(ordered) == multiset(sessions)
    ensures (forall i :: 0 <= i < |ordered| ==> ordered[i].startTime <= now)
      <==> (forall i :: 0 <= i < |sessions| ==> sessions[i].startTime <= now)
  {
    if forall i :: 0 <= i < |ordered| ==> ordered[i].startTime <= now {
      forall i | 0 <= i < |sessions| ensures sessions[i].startTime <= now {
        assert sessions[i] in multiset(ordered);
      }
    }
    if forall i :: 0 <= i < |sessions| ==> sessions[i].startTime <= now {
      forall i | 0 <= i < |ordered| ensures ordered[i].startTime <= now {
        assert ordered[i] in multiset(sessions);
      }
    }
  }

  /** The report on sessions that were read: every session appears once, newest first,
      as `"{identifier} ({duration})"`, the entries joined by `", "`.  A session that starts
      after `now` makes the u64 subtraction of `shorthand_duration` underflow: a panic. */
  function Report(sessions: seq<Session>, now: U64): (r: Result<string>)
    ensures r.Ok? <==> forall i :: 0 <= i < |sessions| ==> sessions[i].startTime <= now
    ensures r.Err? ==> r.error.Panic?
    ensures r.Ok? ==> exists order: seq<Session> ::
      && Descending(order) && multiset(order) == multiset(sessions)
      && (forall i :: 0 <= i < |order| ==> order[i].startTime <= now)
      && r.value == Join(Entries(order, now), ", ")
  {
    var ordered := NewestFirst(sessions);
    StartedByNow(ordered, sessions, now);
    if forall i :: 0 <= i < |ordered| ==> ordered[i].startTime <= now then
      Ok(Join(Entries(ordered, now), ", "))
    else
      Err(Panic("attempt to subtract with overflow"))
  }

  /** `get_status`, given what running tmux gave and the current time: when tmux cannot be
      run its error is the report; a bad listing line makes the handler panic; otherwise the
      report on the sessions read. */
  function GetStatus(listing: Result<string>, now: U64): (r: Result<string>)
    ensures listing.Err? ==> r == Ok(ErrorText(listing.error))
    ensures listing.Ok? && ParseSessions(listing.value).Err? ==> r.Err? && r.error.Panic?
    ensures listing.Ok? && ParseSessions(listing.value).Ok? ==>
      r == Report(ParseSessions(listing.value).value, now)
  {
    match listing
    case Err(e) => Ok(ErrorText(e))
    case Ok(text) =>
      match ParseSessions(text)
      case Err(p) => Err(p)
      case Ok(sessions) => Report(sessions, now)
  }
}

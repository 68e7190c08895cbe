/**
 * The M3U channel-list parser of the frontend (`fetchAndParseM3u`,
 * frontend/src/App.jsx): a single pass over the lines of the playlist text
 * that pairs every `#EXTINF:` line (section 4.3.2.1 of RFC 8216) with the
 * URL line that follows it. `tvg-logo` and `group-title` are the IPTV
 * attribute conventions read from the `#EXTINF:` line.
 *
 * `Run` is the parse as a fold over the lines with the pending entry made
 * explicit; `ParseChannels` is the loop itself, proved equal to the fold.
 */
module M3uParser {
  import opened JsString

  const ExtinfTag := "#EXTINF:"
  const UnnamedChannel := "未命名频道"
  const LogoKey := "tvg-logo=\""
  const GroupKey := "group-title=\""

  /** A channel of the list: the `{name, url, logo, group, id}` record pushed by the parser. */
  datatype Channel = Channel(name: string, url: string, logo: string, group: string, id: string)

  /** The pending `currentChannelInfo`, read from an `#EXTINF:` line and still without a URL. */
  datatype ChannelInfo = ChannelInfo(name: string, logo: string, group: string)

  /** The parser's variables between two lines. */
  datatype ParseState = ParseState(pending: Option<ChannelInfo>, index: nat, channels: seq<Channel>)

  /** The text at position `i`, lower-cased, is `key`. */
  predicate KeyAt(s: string, key: string, i: nat)
  {
    i + |key| <= |s| && ToLower(s[i..i + |key|]) == key
  }

  /**
   * `/key([^"]*)"/i` tried at position `i` and then further right: the
   * leftmost position where `key` occurs, ignoring case, and is followed
   * somewhere by a quote gives the text up to the first such quote.
   */
  function MatchFrom(s: string, key: string, i: nat): (r: Option<string>)
    requires i <= |s|
    ensures r.Some? ==> '"' !in r.value
    decreases |s| - i
  {
    if KeyAt(s, key, i) && IndexFrom(s, '"', i + |key|) >= 0 then
      var q := IndexFrom(s, '"', i + |key|);
      IndexFromFirst(s, '"', i + |key|);
      var v := s[i + |key|..q];
      assert forall j :: 0 <= j < |v| ==> v[j] == s[i + |key| + j];
      Some(v)
    else if i < |s| then MatchFrom(s, key, i + 1)
    else None
  }

  /** `attrs.match(/key([^"]*)"/i)`, with the captured group when it matches. */
  function MatchQuoted(s: string, key: string): (r: Option<string>)
    ensures r.Some? ==> '"' !in r.value
  {
    MatchFrom(s, key, 0)
  }

  lemma {:induction false} IndexFromAt(s: string, c: char, i: nat, r: nat)
    requires i <= r < |s| && s[r] == c
    requires forall j :: i <= j < r ==> s[j] != c
    ensures IndexFrom(s, c, i) == r
    decreases r - i
  {
    if i < r {
      IndexFromAt(s, c, i + 1, r);
    }
  }

  lemma {:induction false} MatchFromFound(s: string, key: string, j: nat, i: nat, v: string)
    requires j <= i && KeyAt(s, key, i) && forall k :: j <= k < i ==> !KeyAt(s, key, k)
    requires '"' !in v && i + |key| + |v| < |s| && s[i + |key|..i + |key| + |v| + 1] == v + ['"']
    ensures MatchFrom(s, key, j) == Some(v)
    decreases i - j
  {
    if j < i {
      MatchFromFound(s, key, j + 1, i, v);
    } else {
      var a := i + |key|;
      forall k | a <= k < a + |v| ensures s[k] != '"' {
        assert s[k] == s[a..a + |v| + 1][k - a] == v[k - a];
      }
      assert s[a + |v|] == s[a..a + |v| + 1][|v|];
      IndexFromAt(s, '"', a, a + |v|);
      assert s[a..a + |v|] == s[a..a + |v| + 1][..|v|] == (v + ['"'])[..|v|] == v;
    }
  }

  /**
   * When the leftmost case-insensitive occurrence of `key` is followed by
   * quote-free text `v` and a quote, the match captures exactly `v`.
   */
  lemma MatchQuotedFound(s: string, key: string, i: nat, v: string)
    requires KeyAt(s, key, i) && forall k :: 0 <= k < i ==> !KeyAt(s, key, k)
    requires '"' !in v && i + |key| + |v| < |s| && s[i + |key|..i + |key| + |v| + 1] == v + ['"']
    ensures MatchQuoted(s, key) == Some(v)
  {
    MatchFromFound(s, key, 0, i, v);
  }

  lemma {:induction false} MatchFromAbsent(s: string, key: string, j: nat)
    requires j <= |s| && forall k :: j <= k <= |s| ==> !KeyAt(s, key, k)
    ensures MatchFrom(s, key, j) == None
    decreases |s| - j
  {
    if j < |s| {
      MatchFromAbsent(s, key, j + 1);
    }
  }

  /** Without a case-insensitive occurrence of `key` there is no match. */
  lemma MatchQuotedAbsent(s: string, key: string)
    requires forall k :: 0 <= k <= |s| ==> !KeyAt(s, key, k)
    ensures MatchQuoted(s, key) == None
  {
    MatchFromAbsent(s, key, 0);
  }

  lemma {:induction false} MatchFromUnclosed(s: string, key: string, j: nat)
    requires j <= |s|
    requires forall k :: j <= k <= |s| && KeyAt(s, key, k) ==> IndexFrom(s, '"', k + |key|) == -1
    ensures MatchFrom(s, key, j) == None
    decreases |s| - j
  {
    if j < |s| {
      MatchFromUnclosed(s, key, j + 1);
    }
  }

  /**
   * When no occurrence of `key` is followed by a closing quote, the pattern
   * fails and there is no match, even though the key itself occurs.
   */
  lemma MatchQuotedUnclosed(s: string, key: string)
    requires forall k :: 0 <= k <= |s| && KeyAt(s, key, k) ==> IndexFrom(s, '"', k + |key|) == -1
    ensures MatchQuoted(s, key) == None
  {
    MatchFromUnclosed(s, key, 0);
  }

  /** The `#EXTINF:` tag contains no comma, so the first comma of a tagged line lies after it. */
  lemma CommaAfterTag(line: string)
    requires StartsWith(line, ExtinfTag)
    ensures IndexOf(line, ',') == -1 || IndexOf(line, ',') >= |ExtinfTag|
  {
    assert forall k | 0 <= k < |ExtinfTag| :: line[k] == ExtinfTag[k] != ',';
  }

  lemma UnnamedChannelTrimmed()
    ensures UnnamedChannel != [] && IsTrimmed(UnnamedChannel)
  {
  }

  /**
   * The entry begun by a trimmed `#EXTINF:` line: the name is the trimmed
   * text after the first comma (after the tag when there is no comma), or
   * `未命名频道` when that is empty; logo and group are the quoted
   * `tvg-logo` and `group-title` values between the tag and the first comma.
   */
  function ParseExtinf(line: string): (info: ChannelInfo)
    requires StartsWith(line, ExtinfTag)
    ensures info.name != [] && IsTrimmed(info.name)
    ensures '"' !in info.logo && '"' !in info.group
  {
    CommaAfterTag(line);
    UnnamedChannelTrimmed();
    var comma := IndexOf(line, ',');
    if comma != -1 then
      var attrs := line[|ExtinfTag|..comma];
      var logo := MatchQuoted(attrs, LogoKey);
      var group := MatchQuoted(attrs, GroupKey);
      var name := Trim(line[comma + 1..]);
      ChannelInfo(if name == [] then UnnamedChannel else name,
                  if logo.Some? then logo.value else "",
                  if group.Some? then group.value else "")
    else
      var name := Trim(line[|ExtinfTag|..]);
      ChannelInfo(if name == [] then UnnamedChannel else name, "", "")
  }

  /** With a comma, the name is the trimmed text after the first comma. */
  lemma ExtinfNameAfterComma(attrs: string, title: string)
    requires ',' !in attrs
    requires Trim(title) != []
    ensures ParseExtinf(ExtinfTag + attrs + "," + title).name == Trim(title)
  {
    var line := ExtinfTag + attrs + "," + title;
    assert ',' !in ExtinfTag + attrs;
    IndexOfJoined(ExtinfTag + attrs, ',', title);
    assert line[|ExtinfTag + attrs| + 1..] == title;
  }

  /**
   * With a comma, logo and group are the quoted `tvg-logo` and `group-title`
   * values of the text between the tag and the first comma, or empty when
   * that text has no such attribute.
   */
  lemma ExtinfAttributes(attrs: string, title: string)
    requires ',' !in attrs
    ensures var info := ParseExtinf(ExtinfTag + attrs + "," + title);
            var logo := MatchQuoted(attrs, LogoKey);
            var group := MatchQuoted(attrs, GroupKey);
            && info.logo == (if logo.Some? then logo.value else "")
            && info.group == (if group.Some? then group.value else "")
  {
    var line := ExtinfTag + attrs + "," + title;
    assert ',' !in ExtinfTag + attrs;
    IndexOfJoined(ExtinfTag + attrs, ',', title);
    assert line[|ExtinfTag|..|ExtinfTag + attrs|] == attrs;
  }

  /** Without a comma, the name is the trimmed text after the tag, and logo and group are empty. */
  lemma ExtinfNameWithoutComma(rest: string)
    requires ',' !in rest
    ensures var info := ParseExtinf(ExtinfTag + rest);
            && info.name == (if Trim(rest) == [] then UnnamedChannel else Trim(rest))
            && info.logo == "" && info.group == ""
  {
    var line := ExtinfTag + rest;
    assert ',' !in line;
    assert line[|ExtinfTag|..] == rest;
  }

  /** A blank title after the comma gives the default name. */
  lemma ExtinfDefaultName(attrs: string, title: string)
    requires ',' !in attrs
    requires AllSpace(title)
    ensures ParseExtinf(ExtinfTag + attrs + "," + title).name == UnnamedChannel
  {
    var line := ExtinfTag + attrs + "," + title;
    assert ',' !in ExtinfTag + attrs;
    IndexOfJoined(ExtinfTag + attrs, ',', title);
    assert line[|ExtinfTag + attrs| + 1..] == title;
    TrimEmpty(title);
  }

  /** The React key of the `index`-th channel: `ch_${index}_${last ten characters of url}`. */
  function ChannelId(index: nat, url: string): string
  {
    "ch_" + (NatToString(index) + "_" + LastChars(url, 10))
  }

  lemma DigitsHaveNoUnderscore(s: string)
    requires forall k :: 0 <= k < |s| ==> IsDigit(s[k])
    ensures '_' !in s
  {
  }

  /** The index is read back from a key as the digits before the first `_` after `ch_`. */
  lemma ChannelIdIndex(i: nat, u: string)
    ensures var rest := ChannelId(i, u)[3..];
            0 <= IndexOf(rest, '_') && rest[..IndexOf(rest, '_')] == NatToString(i)
  {
    var a := NatToString(i);
    var rest := a + "_" + LastChars(u, 10);
    assert ChannelId(i, u)[3..] == rest;
    DigitsHaveNoUnderscore(a);
    IndexOfJoined(a, '_', LastChars(u, 10));
    assert rest[..|a|] == a;
  }

  /** Different indexes give different keys, whatever the URLs. */
  lemma ChannelIdInjective(i: nat, u: string, j: nat, v: string)
    requires ChannelId(i, u) == ChannelId(j, v)
    ensures i == j
  {
    ChannelIdIndex(i, u);
    ChannelIdIndex(j, v);
    NatToStringInjective(i, j);
  }

  /** A tagged line is a comment line. */
  lemma TagIsComment(t: string)
    requires StartsWith(t, ExtinfTag)
    ensures StartsWith(t, "#")
  {
    assert t[0] == ExtinfTag[0];
  }

  /** How the parse treats a trimmed line. */
  datatype LineKind =
    | TagLine      // starts with `#EXTINF:`: begins a new pending entry
    | UrlLine      // neither blank nor a comment, and contains `://`
    | NonUrlLine   // neither blank nor a comment, without `://`
    | SkippedLine  // blank, or any other comment or tag

  function Kind(t: string): LineKind
  {
    if StartsWith(t, ExtinfTag) then TagLine
    else if t == [] || StartsWith(t, "#") then SkippedLine
    else if Includes(t, "://") then UrlLine
    else NonUrlLine
  }

  /** The four kinds in terms of the source's tests on the trimmed line. */
  lemma KindCases(t: string)
    ensures Kind(t) == TagLine <==> StartsWith(t, ExtinfTag)
    ensures Kind(t) == UrlLine <==> !StartsWith(t, "#") && Includes(t, "://")
    ensures Kind(t) == NonUrlLine <==> t != [] && !StartsWith(t, "#") && !Includes(t, "://")
    ensures Kind(t) == SkippedLine <==> !StartsWith(t, ExtinfTag) && (t == [] || StartsWith(t, "#"))
  {
    if StartsWith(t, ExtinfTag) {
      TagIsComment(t);
    }
    if t == [] {
      assert !Includes(t, "://");
    }
  }

  /**
   * What one line does to the parser's variables: an `#EXTINF:` line replaces
   * the pending entry; a URL line completes a pending entry into a channel; a
   * non-blank, non-comment line without `://` drops the pending entry; every
   * other line changes nothing.
   */
  function Step(st: ParseState, line: string): ParseState
  {
    var t := Trim(line);
    match Kind(t)
    case TagLine => st.(pending := Some(ParseExtinf(t)))
    case UrlLine =>
      if st.pending.Some? then
        var info := st.pending.value;
        var ch := Channel(info.name, t, info.logo, info.group, ChannelId(st.index, t));
        ParseState(None, st.index + 1, st.channels + [ch])
      else st
    case NonUrlLine => st.(pending := None)
    case SkippedLine => st
  }

  /** The parser's variables after the given lines, from the empty start. */
  function Run(lines: seq<string>): ParseState
  {
    if lines == [] then ParseState(None, 0, [])
    else Step(Run(lines[..|lines| - 1]), lines[|lines| - 1])
  }

  lemma RunSnoc(lines: seq<string>, line: string)
    ensures Run(lines + [line]) == Step(Run(lines), line)
  {
    assert (lines + [line])[..|lines|] == lines;
  }

  lemma PrefixSnoc<T>(xs: seq<T>, i: nat)
    requires i < |xs|
    ensures xs[..i + 1] == xs[..i] + [xs[i]]
  {
  }

  /** The channel list of a playlist text, which is split on `\n`. */
  function ParseM3u(text: string): seq<Channel>
  {
    Run(Split(text, '\n')).channels
  }

  // ---------------------------------------------------------------------------
  // One line at a time, in the shape of the source's branches

  /** An `#EXTINF:` line replaces any pending entry by the one it describes. */
  lemma TagStartsEntry(st: ParseState, line: string)
    requires StartsWith(Trim(line), ExtinfTag)
    ensures Step(st, line) == st.(pending := Some(ParseExtinf(Trim(line))))
  {
  }

  /** A URL line after an `#EXTINF:` line appends exactly one channel built from both. */
  lemma UrlCompletesPending(st: ParseState, line: string)
    requires st.pending.Some?
    requires var t := Trim(line); !StartsWith(t, "#") && Includes(t, "://")
    ensures var t := Trim(line);
            var info := st.pending.value;
            Step(st, line) == ParseState(None, st.index + 1,
              st.channels + [Channel(info.name, t, info.logo, info.group, ChannelId(st.index, t))])
  {
    KindCases(Trim(line));
  }

  /**
   * A non-comment, non-blank line without `://` after an `#EXTINF:` line
   * drops the pending entry and emits nothing.
   */
  lemma NonUrlDiscardsPending(st: ParseState, line: string)
    requires st.pending.Some?
    requires var t := Trim(line); t != [] && !StartsWith(t, "#") && !Includes(t, "://")
    ensures Step(st, line) == st.(pending := None)
  {
    KindCases(Trim(line));
  }

  /**
   * Any other line leaves everything as it was: in particular a URL line
   * yields a channel only when an `#EXTINF:` line is pending.
   */
  lemma OtherLineIgnored(st: ParseState, line: string)
    requires var t := Trim(line);
             !StartsWith(t, ExtinfTag) && !(st.pending.Some? && t != [] && !StartsWith(t, "#"))
    ensures Step(st, line) == st
  {
    KindCases(Trim(line));
  }

  /** The body of the parse loop: one line's effect on the parser's variables. */
  method ConsumeLine(pending: Option<ChannelInfo>, index: nat, parsed: seq<Channel>, line: string)
    returns (pending': Option<ChannelInfo>, index': nat, parsed': seq<Channel>)
    ensures ParseState(pending', index', parsed') == Step(ParseState(pending, index, parsed), line)
  {
    ghost var before := ParseState(pending, index, parsed);
    pending', index', parsed' := pending, index, parsed;
    var t := Trim(line);
    if StartsWith(t, ExtinfTag) {
      TagStartsEntry(before, line);
      pending' := Some(ParseExtinf(t));
    } else if pending.Some? && t != [] && !StartsWith(t, "#") {
      if Includes(t, "://") {
        UrlCompletesPending(before, line);
        var info := pending.value;
        parsed' := parsed + [Channel(info.name, t, info.logo, info.group, ChannelId(index, t))];
        index' := index + 1;
      } else {
        NonUrlDiscardsPending(before, line);
      }
      pending' := None;
    } else {
      OtherLineIgnored(before, line);
    }
  }

  /** The parse loop of `fetchAndParseM3u`. */
  method ParseChannels(text: string) returns (parsed: seq<Channel>)
    ensures parsed == ParseM3u(text)
  {
    var lines := Split(text, '\n');
    var pending: Option<ChannelInfo> := None;
    var index: nat := 0;
    parsed := [];
    for i := 0 to |lines|
      invariant ParseState(pending, index, parsed) == Run(lines[..i])
    {
      RunSnoc(lines[..i], lines[i]);
      PrefixSnoc(lines, i);
      pending, index, parsed := ConsumeLine(pending, index, parsed, lines[i]);
    }
    assert lines[..|lines|] == lines;
  }

  // ---------------------------------------------------------------------------
  // Properties of the parse

  /** The number of lines that open an entry. */
  function CountExtinf(lines: seq<string>): nat
  {
    if lines == [] then 0
    else CountExtinf(lines[..|lines| - 1])
         + (if StartsWith(Trim(lines[|lines| - 1]), ExtinfTag) then 1 else 0)
  }

  /** An emitted channel: a trimmed URL line with `://`, a name, and the key of its position. */
  predicate WellFormed(ch: Channel, k: nat)
  {
    && ch.url != [] && IsTrimmed(ch.url) && Includes(ch.url, "://") && !StartsWith(ch.url, "#")
    && ch.name != [] && '"' !in ch.logo && '"' !in ch.group
    && ch.id == ChannelId(k, ch.url)
  }

  function Urls(chs: seq<Channel>): (us: seq<string>)
    ensures |us| == |chs| && forall k :: 0 <= k < |chs| ==> us[k] == chs[k].url
  {
    seq(|chs|, k requires 0 <= k < |chs| => chs[k].url)
  }

  function TrimAll(lines: seq<string>): (ts: seq<string>)
    ensures |ts| == |lines| && forall k :: 0 <= k < |lines| ==> ts[k] == Trim(lines[k])
  {
    seq(|lines|, k requires 0 <= k < |lines| => Trim(lines[k]))
  }

  lemma TrimAllSnoc(init: seq<string>, last: string)
    ensures TrimAll(init + [last]) == TrimAll(init) + [Trim(last)]
  {
  }

  /** `a` is `b` with some elements left out, the rest kept in order. */
  predicate IsSubsequence<T(==)>(a: seq<T>, b: seq<T>)
    decreases |b|
  {
    if a == [] then true
    else if b == [] then false
    else if a[|a| - 1] == b[|b| - 1] then IsSubsequence(a[..|a| - 1], b[..|b| - 1])
    else IsSubsequence(a, b[..|b| - 1])
  }

  lemma {:induction false} SubsequenceExtend<T>(a: seq<T>, b: seq<T>, y: T)
    requires IsSubsequence(a, b)
    ensures IsSubsequence(a, b + [y])
    decreases |b|, 1
  {
    assert (b + [y])[..|b|] == b;
    if a != [] && a[|a| - 1] == y {
      SubsequenceDropLast(a, b);
    }
  }

  lemma {:induction false} SubsequenceDropLast<T>(a: seq<T>, b: seq<T>)
    requires a != [] && IsSubsequence(a, b)
    ensures IsSubsequence(a[..|a| - 1], b)
    decreases |b|, 0
  {
    var a', b', x := a[..|a| - 1], b[..|b| - 1], b[|b| - 1];
    assert b == b' + [x];
    if a[|a| - 1] == x {
      SubsequenceExtend(a', b', x);
    } else {
      SubsequenceDropLast(a, b');
      SubsequenceExtend(a', b', x);
    }
  }

  /**
   * The invariant of the parser's variables after lines holding `extinfs`
   * `#EXTINF:` lines: the counter equals the number of channels, every
   * channel is well formed and carries the key of its position, and the
   * channels plus the pending entry never outnumber the `#EXTINF:` lines.
   */
  predicate StateInvariant(st: ParseState, extinfs: nat)
  {
    && st.index == |st.channels|
    && (st.pending.Some? ==> var info := st.pending.value;
          info.name != [] && '"' !in info.logo && '"' !in info.group)
    && (forall k :: 0 <= k < |st.channels| ==> WellFormed(st.channels[k], k))
    && |st.channels| + (if st.pending.Some? then 1 else 0) <= extinfs
  }

  /** Completing the pending entry with a URL line keeps the invariant. */
  lemma CompleteKeepsInvariant(st: ParseState, t: string, extinfs: nat)
    requires StateInvariant(st, extinfs) && st.pending.Some?
    requires t != [] && IsTrimmed(t) && Includes(t, "://") && !StartsWith(t, "#")
    ensures var info := st.pending.value;
            StateInvariant(ParseState(None, st.index + 1,
              st.channels + [Channel(info.name, t, info.logo, info.group, ChannelId(st.index, t))]), extinfs)
  {
    var info := st.pending.value;
    var ch := Channel(info.name, t, info.logo, info.group, ChannelId(st.index, t));
    var chs := st.channels + [ch];
    assert WellFormed(ch, |st.channels|);
    assert forall k :: 0 <= k < |st.channels| ==> chs[k] == st.channels[k];
  }

  lemma StepInvariant(st: ParseState, line: string, extinfs: nat)
    requires StateInvariant(st, extinfs)
    ensures StateInvariant(Step(st, line), extinfs + if StartsWith(Trim(line), ExtinfTag) then 1 else 0)
  {
    var t := Trim(line);
    KindCases(t);
    match Kind(t)
    case TagLine =>
    case UrlLine =>
      if st.pending.Some? {
        UrlCompletesPending(st, line);
        CompleteKeepsInvariant(st, t, extinfs);
      }
    case NonUrlLine =>
    case SkippedLine =>
  }

  lemma {:induction false} RunInvariant(lines: seq<string>)
    ensures StateInvariant(Run(lines), CountExtinf(lines))
  {
    if lines != [] {
      RunInvariant(lines[..|lines| - 1]);
      StepInvariant(Run(lines[..|lines| - 1]), lines[|lines| - 1], CountExtinf(lines[..|lines| - 1]));
    }
  }

  /** A line either leaves the channels alone or appends one channel whose URL is the trimmed line. */
  lemma StepAppends(st: ParseState, line: string)
    ensures var st' := Step(st, line);
            var n := |st.channels|;
            || st'.channels == st.channels
            || (|st'.channels| == n + 1 && st'.channels[..n] == st.channels && st'.channels[n].url == Trim(line))
  {
    var st' := Step(st, line);
    match Kind(Trim(line))
    case UrlLine =>
      if st.pending.Some? {
        assert st'.channels[..|st.channels|] == st.channels;
      }
    case TagLine =>
    case NonUrlLine =>
    case SkippedLine =>
  }

  lemma SubsequenceSnoc<T>(a: seq<T>, b: seq<T>, x: T)
    requires IsSubsequence(a, b)
    ensures IsSubsequence(a + [x], b + [x])
  {
    assert (a + [x])[..|a|] == a && (b + [x])[..|b|] == b;
  }

  lemma UrlsSnoc(chs: seq<Channel>, ch: Channel)
    ensures Urls(chs + [ch]) == Urls(chs) + [ch.url]
  {
  }

  lemma TrimAllLast(lines: seq<string>)
    requires lines != []
    ensures TrimAll(lines) == TrimAll(lines[..|lines| - 1]) + [Trim(lines[|lines| - 1])]
  {
    assert lines == lines[..|lines| - 1] + [lines[|lines| - 1]];
    TrimAllSnoc(lines[..|lines| - 1], lines[|lines| - 1]);
  }

  /** One line extends the URL order by at most its own trimmed text. */
  lemma StepOrder(st: ParseState, line: string, ts: seq<string>)
    requires IsSubsequence(Urls(st.channels), ts)
    ensures IsSubsequence(Urls(Step(st, line).channels), ts + [Trim(line)])
  {
    var st' := Step(st, line);
    StepAppends(st, line);
    if st'.channels == st.channels {
      SubsequenceExtend(Urls(st.channels), ts, Trim(line));
    } else {
      var n := |st.channels|;
      assert st'.channels == st.channels + [st'.channels[n]];
      UrlsSnoc(st.channels, st'.channels[n]);
      SubsequenceSnoc(Urls(st.channels), ts, Trim(line));
    }
  }

  /** The channels' URLs are trimmed input lines, in the order of those lines. */
  lemma {:induction false} RunOrder(lines: seq<string>)
    ensures IsSubsequence(Urls(Run(lines).channels), TrimAll(lines))
  {
    if lines != [] {
      var init, last := lines[..|lines| - 1], lines[|lines| - 1];
      RunOrder(init);
      TrimAllLast(lines);
      StepOrder(Run(init), last, TrimAll(init));
    }
  }

  /** Every channel of a parsed playlist is well formed. */
  lemma ParsedChannelsWellFormed(text: string)
    ensures var chs := ParseM3u(text);
            forall k :: 0 <= k < |chs| ==> WellFormed(chs[k], k)
  {
    RunInvariant(Split(text, '\n'));
  }

  /** Each `#EXTINF:` line yields at most one channel. */
  lemma ParsedCountBound(text: string)
    ensures |ParseM3u(text)| <= CountExtinf(Split(text, '\n'))
  {
    RunInvariant(Split(text, '\n'));
  }

  /** The channels appear in the order of their URL lines. */
  lemma ParsedOrder(text: string)
    ensures IsSubsequence(Urls(ParseM3u(text)), TrimAll(Split(text, '\n')))
  {
    RunOrder(Split(text, '\n'));
  }

  /** No two channels of one parse share a key. */
  lemma ParsedIdsDistinct(text: string, i: nat, j: nat)
    requires i < j < |ParseM3u(text)|
    ensures ParseM3u(text)[i].id != ParseM3u(text)[j].id
  {
    var chs := ParseM3u(text);
    ParsedChannelsWellFormed(text);
    assert WellFormed(chs[i], i) && WellFormed(chs[j], j);
    if chs[i].id == chs[j].id {
      ChannelIdInjective(i, chs[i].url, j, chs[j].url);
    }
  }
}

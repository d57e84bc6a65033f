/** The embeddable widget: once a second it fetches the now-playing record
    and writes it into the page (title, link, cover, artist links, progress
    bar and `m:ss / m:ss` text). */
module Widget {
  import opened Http
  import opened Text
  import NowPlaying

  // ---------------------------------------------------------------------
  // Time formatting

  /** `Math.floor(ms / 60000)`: for a positive divisor Dafny's division
      already rounds down, negative numerators included. */
  function Minutes(ms: int): (m: int)
    ensures m * 60000 <= ms < m * 60000 + 60000
    ensures ms >= 0 ==> m >= 0
  {
    ms / 60000
  }

  /** JavaScript's `%`: the remainder takes the sign of the dividend. */
  function JsRemainder(a: int, b: int): (r: int)
    requires b > 0
    ensures a >= 0 ==> r == a % b
    ensures a < 0 ==> -b < r <= 0 && a == -((-a) / b) * b + r
  {
    if a >= 0 then a % b else -((-a) % b)
  }

  /** `Math.floor((ms % 60000) / 1000)` */
  function Seconds(ms: int): (s: int)
    ensures ms >= 0 ==> 0 <= s <= 59
    ensures ms < 0 ==> -60 <= s <= 0
  {
    JsRemainder(ms, 60000) / 1000
  }

  /** One clock: the minutes unpadded, a colon, the seconds padded with `0`
      to two characters. */
  function Clock(ms: int): string
  {
    IntString(Minutes(ms)) + ":" + PadStart(IntString(Seconds(ms)), 2, '0')
  }

  /** A clock holds no space, so it cannot be confused with the separator. */
  lemma ClockNoSpace(ms: int)
    ensures ' ' !in Clock(ms)
  {
    IntStringNoSpace(Minutes(ms));
    IntStringNoSpace(Seconds(ms));
  }

  /** The text of `#progress-text`. */
  function ProgressText(progressMs: int, durationMs: int): string
  {
    Clock(progressMs) + " / " + Clock(durationMs)
  }

  /** Joining two space-free texts with ` / ` leaves exactly the two spaces
      of the separator. */
  lemma JoinedSpaces(a: string, b: string)
    requires ' ' !in a && ' ' !in b
    ensures var t := a + " / " + b;
      forall i :: 0 <= i < |t| && t[i] == ' ' ==> i == |a| || i == |a| + 2
  {
    var t := a + " / " + b;
    assert forall i :: 0 <= i < |a| ==> t[i] == a[i];
    assert forall i :: |a| + 3 <= i < |t| ==> t[i] == b[i - |a| - 3];
  }

  /** A decimal integer has no space in it, padded or not. */
  lemma IntStringNoSpace(n: int)
    ensures ' ' !in IntString(n) && ' ' !in PadStart(IntString(n), 2, '0')
  {
    var d := NatString(if n < 0 then -n else n);
    assert forall i :: 0 <= i < |d| ==> IsDigit(d[i]);
    assert ' ' !in d;
    if n < 0 {
      assert IntString(n) == "-" + d;
    }
    var r := IntString(n);
    if |r| < 2 {
      assert PadStart(r, 2, '0') == Repeat('0', 2 - |r|) + r;
      assert ' ' !in Repeat('0', 2 - |r|);
    }
  }

  /** For a non-negative time the clock stands for whole minutes and seconds
      that lie within one second below it. */
  lemma ClockDecomposition(ms: int)
    requires ms >= 0
    ensures 0 <= Seconds(ms) <= 59
    ensures Minutes(ms) * 60000 + Seconds(ms) * 1000 <= ms < Minutes(ms) * 60000 + Seconds(ms) * 1000 + 1000
  {
    var r := JsRemainder(ms, 60000);
    assert ms == Minutes(ms) * 60000 + r;
  }

  /** For a non-negative time the clock text is the minutes' digits, a colon,
      and exactly two digits of seconds; reading the text back gives the
      minutes and the seconds. */
  lemma ClockReadsBack(ms: int)
    requires ms >= 0
    ensures var c := Clock(ms); var k := |NatString(Minutes(ms))|;
      && |c| == k + 3 && c[k] == ':'
      && AllDigits(c[..k]) && ParseNat(c[..k]) == Minutes(ms)
      && AllDigits(c[k + 1..]) && ParseNat(c[k + 1..]) == Seconds(ms)
  {
    var m, s := Minutes(ms), Seconds(ms);
    var digits := NatString(m);
    var k := |digits|;
    var padded := PadStart(NatString(s), 2, '0');
    TwoDigitSeconds(s);
    var c := digits + ":" + padded;
    assert Clock(ms) == c;
    assert c[..k] == digits;
    assert c[k + 1..] == padded;
    ParseNatString(m);
  }

  /** A number of seconds pads to exactly its two decimal digits. */
  lemma TwoDigitSeconds(s: nat)
    requires s < 60
    ensures var padded := PadStart(NatString(s), 2, '0');
      && padded == [DigitChar(s / 10), DigitChar(s % 10)]
      && AllDigits(padded) && ParseNat(padded) == s
  {
    var padded := PadStart(NatString(s), 2, '0');
    if s < 10 {
      assert NatString(s) == [DigitChar(s)];
      assert Repeat('0', 1) == ['0'];
      assert DigitChar(0) == '0';
    } else {
      assert NatString(s) == NatString(s / 10) + [DigitChar(s % 10)];
      assert NatString(s / 10) == [DigitChar(s / 10)];
    }
    assert padded[..1] == [DigitChar(s / 10)];
    assert [DigitChar(s / 10)][..0] == [];
    assert ParseNat([DigitChar(s / 10)]) == s / 10;
  }

  /** The two clocks of the progress text are separated by its only ` / `:
      its only spaces are the two around that slash, so the text splits back
      into the two clocks, each of which reads back on its own. */
  lemma ProgressTextSplits(progressMs: int, durationMs: int)
    ensures var t := ProgressText(progressMs, durationMs); var k := |Clock(progressMs)|;
      && t[..k] == Clock(progressMs) && t[k..k + 3] == " / " && t[k + 3..] == Clock(durationMs)
      && (forall i :: 0 <= i < |t| && t[i] == ' ' ==> i == k || i == k + 2)
      && forall j :: 0 <= j < |t| - 2 && t[j] == ' ' && t[j + 1] == '/' && t[j + 2] == ' ' ==> j == k
  {
    ClockNoSpace(progressMs);
    ClockNoSpace(durationMs);
    JoinedSpaces(Clock(progressMs), Clock(durationMs));
  }

  // ---------------------------------------------------------------------
  // Artist links

  /** The text node placed between two artist links. */
  const Separator := ", "

  /** A child of `#artist-names`; a link's `href` is `None` when
      `data.artistLinks[index]` is `undefined`. */
  datatype Node = ArtistLink(href: Option<string>, text: string) | TextNode(text: string)

  /** `data.artistLinks[index]` */
  function LinkAt(links: seq<string>, index: nat): Option<string> {
    if index < |links| then Some(links[index]) else None
  }

  /** The children the `forEach` loop appends: one link per artist, in order,
      with a separator between neighbours and none after the last. */
  function ArtistNodes(names: seq<string>, links: seq<string>): (nodes: seq<Node>)
    ensures |nodes| == if names == [] then 0 else 2 * |names| - 1
    ensures forall i :: 0 <= i < |names| ==> nodes[2 * i] == ArtistLink(LinkAt(links, i), names[i])
    ensures forall i :: 0 <= i < |names| - 1 ==> nodes[2 * i + 1] == TextNode(Separator)
    decreases |names|
  {
    var n := |names|;
    if n == 0 then []
    else if n == 1 then [ArtistLink(LinkAt(links, 0), names[0])]
    else
      var front := ArtistNodes(names[..n - 1], links);
      var nodes := front + [TextNode(Separator), ArtistLink(LinkAt(links, n - 1), names[n - 1])];
      assert forall i :: 0 <= i < n - 1 ==> nodes[2 * i] == front[2 * i] && names[..n - 1][i] == names[i];
      nodes
  }

  /** The number of separator nodes among `nodes`. */
  function SeparatorCount(nodes: seq<Node>): nat {
    if nodes == [] then 0
    else (if nodes[0] == TextNode(Separator) then 1 else 0) + SeparatorCount(nodes[1..])
  }

  lemma {:induction false} SeparatorCountAppend(a: seq<Node>, b: seq<Node>)
    ensures SeparatorCount(a + b) == SeparatorCount(a) + SeparatorCount(b)
  {
    if a == [] {
      assert a + b == b;
    } else {
      assert (a + b)[1..] == a[1..] + b;
      SeparatorCountAppend(a[1..], b);
    }
  }

  /** n artists give exactly n - 1 separators, and the last child is a link. */
  lemma {:induction false} ArtistNodesSeparators(names: seq<string>, links: seq<string>)
    requires names != []
    ensures SeparatorCount(ArtistNodes(names, links)) == |names| - 1
    ensures ArtistNodes(names, links)[|ArtistNodes(names, links)| - 1].ArtistLink?
    decreases |names|
  {
    var n := |names|;
    if n > 1 {
      var front := ArtistNodes(names[..n - 1], links);
      var tail := [TextNode(Separator), ArtistLink(LinkAt(links, n - 1), names[n - 1])];
      ArtistNodesSeparators(names[..n - 1], links);
      SeparatorCountAppend(front, tail);
      assert SeparatorCount(tail) == 1 by {
        assert tail[0] == TextNode(Separator);
        assert tail[1..] == [ArtistLink(LinkAt(links, n - 1), names[n - 1])];
        assert tail[1..][1..] == [];
        assert SeparatorCount(tail[1..]) == 0;
      }
    }
  }

  /** The record the server builds links every artist: no link the widget
      renders has an `undefined` target. */
  lemma ServerRecordsLinkEveryArtist(reply: Reply<NowPlaying.SongJson>, i: nat)
    requires NowPlaying.GetNowPlaying(reply).Track?
    requires i < |NowPlaying.GetNowPlaying(reply).artistNames|
    ensures var r := NowPlaying.GetNowPlaying(reply);
      ArtistNodes(r.artistNames, r.artistLinks)[2 * i].href == Some(reply.data.item.value.artists[i].spotifyUrl)
  {
  }

  // ---------------------------------------------------------------------
  // The page

  /** The page elements `fetchData` writes. `barFrom` is the
      (progress, duration) pair the bar width was last computed from, `None`
      while it still has the page's own width. */
  class Page {
    var trackName: string
    var trackLink: Option<string>
    var albumCover: string
    var artistNodes: seq<Node>
    var barFrom: Option<(int, int)>
    var progressText: string
    var shown: bool

    /** A page as loaded, before the first refresh. */
    constructor ()
      ensures trackName == "" && trackLink == None && albumCover == ""
      ensures artistNodes == [] && barFrom == None && progressText == "" && !shown
    {
      trackName, trackLink, albumCover := "", None, "";
      artistNodes, barFrom, progressText, shown := [], None, "", false;
    }

    /** One run of `fetchData`. `record` is `None` when the fetch or the JSON
        parse threw, before anything was written. A fallback record has no
        `artistNames`, so `forEach` throws once the title, link, cover and
        artist container have been written, and the rest stays as it was. */
    method Refresh(record: Option<NowPlaying.Record>)
      modifies this
      ensures record.None? ==>
        && trackName == old(trackName) && trackLink == old(trackLink) && albumCover == old(albumCover)
        && artistNodes == old(artistNodes)
      ensures record.Some? ==>
        && trackName == record.value.shortenedName && albumCover == record.value.image
        && trackLink == (if record.value.Track? then Some(record.value.link) else None)
      ensures record.Some? && record.value.Fallback? ==> artistNodes == []
      ensures record.Some? && record.value.Track? ==>
        && artistNodes == ArtistNodes(record.value.artistNames, record.value.artistLinks)
        && barFrom == (if record.value.durationMs > 0
                       then Some((record.value.progressMs, record.value.durationMs)) else old(barFrom))
        && progressText == ProgressText(record.value.progressMs, record.value.durationMs)
        && shown
      ensures !(record.Some? && record.value.Track?) ==>
        barFrom == old(barFrom) && progressText == old(progressText) && shown == old(shown)
    {
      if record.None? {
        return;
      }
      var data := record.value;
      trackName := data.shortenedName;
      trackLink := if data.Track? then Some(data.link) else None;
      albumCover := data.image;
      artistNodes := [];
      if data.Fallback? {
        return;
      }
      RenderArtists(data.artistNames, data.artistLinks);
      if data.durationMs > 0 {
        barFrom := Some((data.progressMs, data.durationMs));
      }
      progressText := ProgressText(data.progressMs, data.durationMs);
      shown := true;
    }

    /** The `forEach` over the artist names: one link per artist, each but
        the last followed by a separator, appended to the emptied container. */
    method RenderArtists(names: seq<string>, links: seq<string>)
      requires artistNodes == []
      modifies this`artistNodes
      ensures artistNodes == ArtistNodes(names, links)
    {
      var index := 0;
      while index < |names|
        invariant 0 <= index <= |names|
        invariant |artistNodes| == if index == 0 then 0 else if index < |names| then 2 * index else 2 * index - 1
        invariant forall i :: 0 <= i < index ==> artistNodes[2 * i] == ArtistLink(LinkAt(links, i), names[i])
        invariant forall i :: 0 <= i < index && i < |names| - 1 ==> artistNodes[2 * i + 1] == TextNode(Separator)
      {
        artistNodes := artistNodes + [ArtistLink(LinkAt(links, index), names[index])];
        if index < |names| - 1 {
          artistNodes := artistNodes + [TextNode(Separator)];
        }
        index := index + 1;
      }
      SameArtistNodes(artistNodes, names, links);
    }
  }

  /** The shape ArtistNodes promises determines the children completely. */
  lemma SameArtistNodes(nodes: seq<Node>, names: seq<string>, links: seq<string>)
    requires |nodes| == if names == [] then 0 else 2 * |names| - 1
    requires forall i :: 0 <= i < |names| ==> nodes[2 * i] == ArtistLink(LinkAt(links, i), names[i])
    requires forall i :: 0 <= i < |names| - 1 ==> nodes[2 * i + 1] == TextNode(Separator)
    ensures nodes == ArtistNodes(names, links)
  {
    var spec := ArtistNodes(names, links);
    forall j | 0 <= j < |nodes| ensures nodes[j] == spec[j] {
      if j % 2 == 0 {
        assert nodes[2 * (j / 2)] == spec[2 * (j / 2)];
      } else {
        assert nodes[2 * (j / 2) + 1] == spec[2 * (j / 2) + 1];
      }
    }
  }
}

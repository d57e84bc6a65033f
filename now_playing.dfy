/** The server-side "now playing" normaliser: it asks the playback service for
    the current track and turns the answer into the small record the widget
    shows, with fallbacks for every way that can go wrong. */
module NowPlaying {
  import opened Http
  import opened Credentials

  /** The image every fallback record carries. */
  const SpotifyLogo := "/assets/spotify.svg"

  /** Titles longer than this many UTF-16 code units get shortened. */
  const MaxTitleLength := 30

  // ---------------------------------------------------------------------
  // The parts of the currently-playing JSON body that the handler reads.

  datatype ArtistJson = ArtistJson(name: string, spotifyUrl: string)

  /** `song.item`; `album.images` and `album.artists` are kept as sequences
      because the handler indexes their first element. */
  datatype ItemJson = ItemJson(
    durationMs: int,
    name: string,
    spotifyUrl: string,
    artists: seq<ArtistJson>,
    albumImageUrls: seq<string>,
    albumArtists: seq<ArtistJson>)

  /** The parsed body; `item` is `None` when the body has no track (an error
      object, or a `null` item). */
  datatype SongJson = SongJson(progressMs: int, item: Option<ItemJson>)

  /** What the handler returns. */
  datatype Record =
    | Fallback(shortenedName: string, image: string)
    | Track(
        durationMs: int,
        progressMs: int,
        shortenedName: string,
        link: string,
        artistNames: seq<string>,
        artistLinks: seq<string>,
        image: string)

  // ---------------------------------------------------------------------
  // Credentials

  /** The text that is base64-encoded into the `Basic` header. The server reads
      its three variables without checking them, so a missing one is written
      as the template literal writes it: `undefined`. */
  function BasicCredentialText(clientId: Option<string>, clientSecret: Option<string>): (text: string)
    ensures clientId.Some? && clientSecret.Some? ==> text == UserPass(clientId.value, clientSecret.value)
    ensures clientId.None? ==> text == "undefined:" + TemplateText(clientSecret)
    ensures clientSecret.None? ==> text == TemplateText(clientId) + ":undefined"
  {
    UserPass(TemplateText(clientId), TemplateText(clientSecret))
  }

  /** The receiver reads back exactly the two values the server holds, with
      `undefined` standing for a missing one, as long as the id has no colon. */
  lemma BasicCredentialRoundTrip(clientId: Option<string>, clientSecret: Option<string>)
    requires forall i :: 0 <= i < |TemplateText(clientId)| ==> TemplateText(clientId)[i] != ':'
    ensures SplitUserPass(BasicCredentialText(clientId, clientSecret)) ==
      Some((if clientId.Some? then clientId.value else "undefined",
            if clientSecret.Some? then clientSecret.value else "undefined"))
  {
    SplitUserPassRoundTrip(TemplateText(clientId), TemplateText(clientSecret));
  }

  // ---------------------------------------------------------------------
  // JavaScript string length and `trim`

  /** The number of UTF-16 code units of one character: two for a character
      outside the Basic Multilingual Plane. */
  function CodeUnits(c: char): nat {
    if c as int > 0xFFFF then 2 else 1
  }

  /** `String.prototype.length`. */
  function JsLength(s: string): (n: nat)
    ensures |s| <= n <= 2 * |s|
  {
    if s == [] then 0 else CodeUnits(s[0]) + JsLength(s[1..])
  }

  lemma {:induction false} JsLengthAppend(a: string, b: string)
    ensures JsLength(a + b) == JsLength(a) + JsLength(b)
  {
    if a == [] {
      assert a + b == b;
    } else {
      assert (a + b)[1..] == a[1..] + b;
      JsLengthAppend(a[1..], b);
    }
  }

  lemma {:induction false} JsLengthDrop(s: string, i: nat)
    requires i <= |s|
    ensures JsLength(s[i..]) <= JsLength(s)
  {
    if i > 0 {
      assert s[i..] == s[1..][i - 1..];
      JsLengthDrop(s[1..], i - 1);
    }
  }

  lemma {:induction false} JsLengthTake(s: string, j: nat)
    requires j <= |s|
    ensures JsLength(s[..j]) <= JsLength(s)
  {
    if j > 0 {
      assert s[..j][1..] == s[1..][..j - 1];
      JsLengthTake(s[1..], j - 1);
    }
  }

  /** A slice is never longer, in code units, than the whole. */
  lemma JsLengthSlices(s: string, i: nat, j: nat)
    requires i <= j <= |s|
    ensures JsLength(s[i..j]) <= JsLength(s)
  {
    assert s[i..j] == s[..j][i..];
    JsLengthDrop(s[..j], i);
    JsLengthTake(s, j);
  }

  /** The characters `String.prototype.trim` removes: the WhiteSpace and
      LineTerminator code points of ECMAScript (section 12.2 and 12.3 of
      ECMA-262), with the space separators of Unicode category Zs. */
  predicate IsJsSpace(c: char) {
    var k := c as int;
    || (0x9 <= k <= 0xD)        // tab, line feed, vertical tab, form feed, carriage return
    || k == 0x20 || k == 0xA0 || k == 0x1680
    || (0x2000 <= k <= 0x200A)
    || k == 0x2028 || k == 0x2029  // line and paragraph separators
    || k == 0x202F || k == 0x205F || k == 0x3000
    || k == 0xFEFF                 // byte order mark
  }

  /** The number of white-space characters `s` starts with. */
  function LeadingSpaces(s: string): (n: nat)
    ensures n <= |s|
    ensures forall i :: 0 <= i < n ==> IsJsSpace(s[i])
    ensures n < |s| ==> !IsJsSpace(s[n])
  {
    if s == [] || !IsJsSpace(s[0]) then 0 else 1 + LeadingSpaces(s[1..])
  }

  /** The position just after the last character of `s` that is not white space. */
  function ContentEnd(s: string): (n: nat)
    ensures n <= |s|
    ensures forall i :: n <= i < |s| ==> IsJsSpace(s[i])
    ensures n > 0 ==> !IsJsSpace(s[n - 1])
  {
    if s == [] || !IsJsSpace(s[|s| - 1]) then |s| else ContentEnd(s[..|s| - 1])
  }

  /** `String.prototype.trim`: the slice of `s` left once the white space at
      both ends is cut off. It neither starts nor ends with white space, and
      everything cut off is white space. */
  function Trim(s: string): (r: string)
    ensures r == [] || (!IsJsSpace(r[0]) && !IsJsSpace(r[|r| - 1]))
    ensures var a := LeadingSpaces(s);
      && a + |r| <= |s| && r == s[a..a + |r|]
      && (forall i :: 0 <= i < a ==> IsJsSpace(s[i]))
      && (forall i :: a + |r| <= i < |s| ==> IsJsSpace(s[i]))
    ensures JsLength(r) <= JsLength(s)
  {
    var a := LeadingSpaces(s);
    var b := ContentEnd(s);
    if b <= a then
      []
    else
      JsLengthSlices(s, a, b);
      assert s[a..b][0] == s[a] && s[a..b][b - a - 1] == s[b - 1];
      s[a..b]
  }

  /** Trimming text that has no white space at either end changes nothing, so
      trimming twice is trimming once. */
  lemma TrimIdempotent(s: string)
    ensures Trim(s) == s <==> (s == [] || (!IsJsSpace(s[0]) && !IsJsSpace(s[|s| - 1])))
    ensures Trim(Trim(s)) == Trim(s)
  {
    var r := Trim(s);
    assert r == [] || (!IsJsSpace(r[0]) && !IsJsSpace(r[|r| - 1]));
  }

  // ---------------------------------------------------------------------
  // The regular-expression strip

  /** The two global regular expressions of the shortening rule:
      `/\[[^\]]*\]/g` (Brackets) and `/\[[^\]]*\]|\([^)]*\)/g` (BracketsOrParens). */
  datatype Pattern = Brackets | BracketsOrParens

  /** The character that closes a group opened by `c`, if `c` opens one. */
  function Closer(p: Pattern, c: char): (close: Option<char>)
    ensures close.Some? <==> c == '[' || (c == '(' && p == BracketsOrParens)
  {
    if c == '[' then Some(']')
    else if c == '(' && p == BracketsOrParens then Some(')')
    else None
  }

  /** The position of the first `c` in `s`. */
  function FirstIndex(s: string, c: char): (k: nat)
    requires c in s
    ensures k < |s| && s[k] == c && c !in s[..k]
  {
    if s[0] == c then 0 else 1 + FirstIndex(s[1..], c)
  }

  /** `s.replace(pattern, "")`, as the regular-expression engine scans it left
      to right: at an opener whose closer occurs later, the match runs to the
      FIRST such closer (the class `[^\]]*` cannot pass it) and is deleted,
      and the scan resumes after it; at any other position the character is
      kept and the scan moves one place on. */
  function Strip(p: Pattern, s: string): (r: string)
    ensures |r| <= |s| && JsLength(r) <= JsLength(s)
    decreases |s|
  {
    if s == [] then []
    else
      var close := Closer(p, s[0]);
      if close.Some? && close.value in s[1..] then
        var k := FirstIndex(s[1..], close.value) + 2;
        JsLengthSlices(s, k, |s|);
        assert s[k..|s|] == s[k..];
        Strip(p, s[k..])
      else
        var rest := Strip(p, s[1..]);
        assert s == [s[0]] + s[1..];
        JsLengthAppend([s[0]], s[1..]);
        JsLengthAppend([s[0]], rest);
        [s[0]] + rest
  }

  /** No opener in `s` is followed, anywhere later, by its closer: the pattern
      has nothing left to match. */
  predicate NoGroup(p: Pattern, s: string) {
    forall i :: 0 <= i < |s| && Closer(p, s[i]).Some? ==> Closer(p, s[i]).value !in s[i + 1..]
  }

  lemma {:induction false} StripKeepsGroupless(p: Pattern, s: string)
    requires NoGroup(p, s)
    ensures Strip(p, s) == s
    decreases |s|
  {
    if s != [] {
      assert NoGroup(p, s[1..]) by {
        forall i | 0 <= i < |s[1..]| && Closer(p, s[1..][i]).Some?
          ensures Closer(p, s[1..][i]).value !in s[1..][i + 1..]
        {
          assert s[1..][i + 1..] == s[i + 2..];
        }
      }
      StripKeepsGroupless(p, s[1..]);
      assert s == [s[0]] + s[1..];
    }
  }

  /** Every character of the result occurs in the input. */
  lemma {:induction false} StripOnlyRemoves(p: Pattern, s: string)
    ensures forall c :: c in Strip(p, s) ==> c in s
    decreases |s|
  {
    if s != [] {
      var close := Closer(p, s[0]);
      if close.Some? && close.value in s[1..] {
        var k := FirstIndex(s[1..], close.value) + 2;
        StripOnlyRemoves(p, s[k..]);
        assert forall c :: c in s[k..] ==> c in s;
      } else {
        StripOnlyRemoves(p, s[1..]);
        assert forall c :: c in s[1..] ==> c in s;
      }
    }
  }

  lemma {:induction false} StripLeavesNoGroup(p: Pattern, s: string)
    ensures NoGroup(p, Strip(p, s))
    decreases |s|
  {
    if s != [] {
      var close := Closer(p, s[0]);
      if close.Some? && close.value in s[1..] {
        var k := FirstIndex(s[1..], close.value) + 2;
        StripLeavesNoGroup(p, s[k..]);
      } else {
        var rest := Strip(p, s[1..]);
        StripLeavesNoGroup(p, s[1..]);
        StripOnlyRemoves(p, s[1..]);
        var r := [s[0]] + rest;
        forall i | 0 <= i < |r| && Closer(p, r[i]).Some?
          ensures Closer(p, r[i]).value !in r[i + 1..]
        {
          if i == 0 {
            assert r[1..] == rest;
          } else {
            assert r[i] == rest[i - 1];
            assert r[i + 1..] == rest[i..];
          }
        }
      }
    }
  }

  /** Stripping is a projection: a second pass finds nothing to remove. */
  lemma StripIdempotent(p: Pattern, s: string)
    ensures Strip(p, Strip(p, s)) == Strip(p, s)
  {
    StripLeavesNoGroup(p, s);
    StripKeepsGroupless(p, Strip(p, s));
  }

  /** Text with no opener of the pattern (no `[`, and for BracketsOrParens no
      `(`) is left as it is. */
  lemma StripWithoutOpeners(p: Pattern, s: string)
    requires forall i :: 0 <= i < |s| ==> Closer(p, s[i]).None?
    ensures Strip(p, s) == s
  {
    StripKeepsGroupless(p, s);
  }

  // ---------------------------------------------------------------------
  // The title rule

  /** `shortenedName`: a title over 30 code units is shortened, but only when
      removing its `[...]` groups alone would not already bring it to 30 or
      fewer; the shortened form removes both `[...]` and `(...)` groups and
      trims. */
  function ShortenedName(name: string): (r: string)
    ensures JsLength(name) <= MaxTitleLength ==> r == name
    ensures r == name || r == Trim(Strip(BracketsOrParens, name))
    ensures JsLength(name) > MaxTitleLength && JsLength(Trim(Strip(Brackets, name))) <= MaxTitleLength ==> r == name
    ensures JsLength(name) > MaxTitleLength && JsLength(Trim(Strip(Brackets, name))) > MaxTitleLength ==>
      r == Trim(Strip(BracketsOrParens, name))
    ensures JsLength(r) <= JsLength(name)
  {
    var probe := if JsLength(name) > MaxTitleLength then Trim(Strip(Brackets, name)) else name;
    if JsLength(probe) > MaxTitleLength then Trim(Strip(BracketsOrParens, name)) else name
  }

  /** Text without openers passes through the scan unchanged, whatever follows it. */
  lemma {:induction false} StripPlainPrefix(p: Pattern, h: string, rest: string)
    requires forall i :: 0 <= i < |h| ==> Closer(p, h[i]).None?
    ensures Strip(p, h + rest) == h + Strip(p, rest)
    decreases |h|
  {
    if h == [] {
      assert h + rest == rest;
    } else {
      PlainTail(p, h);
      StripPlainPrefix(p, h[1..], rest);
      TailOfAppend(h, rest);
      StripKeepsPlain(p, h + rest);
      AppendAssociates([h[0]], h[1..], Strip(p, rest));
    }
  }

  lemma PlainTail(p: Pattern, h: string)
    requires h != [] && forall i :: 0 <= i < |h| ==> Closer(p, h[i]).None?
    ensures Closer(p, h[0]).None? && forall i :: 0 <= i < |h[1..]| ==> Closer(p, h[1..][i]).None?
  {
    forall i | 0 <= i < |h[1..]| ensures Closer(p, h[1..][i]).None? {
      assert h[1..][i] == h[i + 1];
    }
  }

  lemma TailOfAppend(h: string, rest: string)
    requires h != []
    ensures (h + rest)[0] == h[0] && (h + rest)[1..] == h[1..] + rest && [h[0]] + h[1..] == h
  {
  }

  lemma AppendAssociates(a: string, b: string, c: string)
    ensures (a + b) + c == a + (b + c)
  {
  }

  lemma StripKeepsPlain(p: Pattern, x: string)
    requires x != [] && Closer(p, x[0]).None?
    ensures Strip(p, x) == [x[0]] + Strip(p, x[1..])
  {
  }

  /** One complete `[...]` group is removed entirely. */
  lemma StripSquareGroup(p: Pattern, inner: string)
    requires ']' !in inner
    ensures Strip(p, "[" + inner + "]") == []
  {
    StripGroupAnywhere(p, inner, []);
    assert "[" + inner + "]" + [] == "[" + inner + "]";
  }

  /** A `[...]` group at the head of a text is dropped whole, and the scan
      carries on with what follows it. */
  lemma StripGroupAnywhere(p: Pattern, inner: string, rest: string)
    requires ']' !in inner
    ensures Strip(p, "[" + inner + "]" + rest) == Strip(p, rest)
  {
    var g := "[" + inner + "]" + rest;
    assert g[1..] == inner + "]" + rest;
    var k := FirstIndex(g[1..], ']');
    assert k == |inner| by {
      assert g[1..][|inner|] == ']';
      assert forall i :: 0 <= i < |inner| ==> g[1..][i] == inner[i];
    }
    assert g[|inner| + 2..] == rest;
  }

  /** A title over 30 code units whose only `[...]` group is a trailing tag,
      with a head of at most 30: the bracket-only probe is short enough, so
      the rule keeps the whole title, tag included, and does not shorten it. */
  lemma TrailingTagTitleKept(head: string, inner: string)
    requires forall i :: 0 <= i < |head| ==> head[i] != '['
    requires ']' !in inner
    requires JsLength(head) <= MaxTitleLength < JsLength(head + "[" + inner + "]")
    ensures ShortenedName(head + "[" + inner + "]") == head + "[" + inner + "]"
  {
    StripTrailingTag(head, inner);
    ShortProbeKeepsName(head + "[" + inner + "]");
  }

  /** Stripping square brackets from a head without `[` and one trailing
      group leaves the head. */
  lemma StripTrailingTag(head: string, inner: string)
    requires forall i :: 0 <= i < |head| ==> head[i] != '['
    requires ']' !in inner
    ensures Strip(Brackets, head + "[" + inner + "]") == head
  {
    assert head + "[" + inner + "]" == head + ("[" + inner + "]");
    StripPlainPrefix(Brackets, head, "[" + inner + "]");
    StripSquareGroup(Brackets, inner);
    assert head + [] == head;
  }

  /** A title whose bracket-only probe is within the limit is kept whole. */
  lemma ShortProbeKeepsName(name: string)
    requires JsLength(Trim(Strip(Brackets, name))) <= MaxTitleLength
    ensures ShortenedName(name) == name
  {
  }

  // ---------------------------------------------------------------------
  // The handler

  /** `song.item.artists.map(a => a.name)` */
  function ArtistNames(artists: seq<ArtistJson>): (names: seq<string>)
    ensures |names| == |artists|
    ensures forall i :: 0 <= i < |artists| ==> names[i] == artists[i].name
  {
    if artists == [] then [] else [artists[0].name] + ArtistNames(artists[1..])
  }

  /** `song.item.artists.map(a => a.external_urls.spotify)` */
  function ArtistLinks(artists: seq<ArtistJson>): (links: seq<string>)
    ensures |links| == |artists|
    ensures forall i :: 0 <= i < |artists| ==> links[i] == artists[i].spotifyUrl
  {
    if artists == [] then [] else [artists[0].spotifyUrl] + ArtistLinks(artists[1..])
  }

  /** A body from which the handler can read every field it touches: an item,
      a first album image (`album.images[0].url`) and a first album artist
      (`album.artists[0]`, read although unused). Any other body makes a
      property access throw. */
  predicate Readable(song: SongJson) {
    song.item.Some? && |song.item.value.albumImageUrls| > 0 && |song.item.value.albumArtists| > 0
  }

  /** `getNowPlaying`, with both upstream exchanges folded into `reply`: a throw
      anywhere (token request, playback request, JSON parsing) is `Threw`. */
  function GetNowPlaying(reply: Reply<SongJson>): (r: Record)
    ensures reply.Threw? ==> r == Fallback("Error", SpotifyLogo)
    ensures reply.Answered? && reply.status > 400 ==> r == Fallback("Error (Forbidden)", SpotifyLogo)
    ensures reply.Answered? && reply.status == 204 ==> r == Fallback("Currently Not Playing", SpotifyLogo)
    ensures reply.Answered? && reply.status <= 400 && reply.status != 204 && !Readable(reply.data) ==>
      r == Fallback("Error", SpotifyLogo)
    ensures r.Track? <==> reply.Answered? && reply.status <= 400 && reply.status != 204 && Readable(reply.data)
    ensures r.Track? ==>
      var song := reply.data;
      var item := song.item.value;
      && r.durationMs == item.durationMs && r.progressMs == song.progressMs
      && r.shortenedName == ShortenedName(item.name)
      && r.link == item.spotifyUrl && r.image == item.albumImageUrls[0]
      && |r.artistNames| == |r.artistLinks| == |item.artists|
      && (forall i :: 0 <= i < |item.artists| ==>
            r.artistNames[i] == item.artists[i].name && r.artistLinks[i] == item.artists[i].spotifyUrl)
    ensures r.Fallback? ==> r.image == SpotifyLogo
  {
    match reply
    case Threw(_) => Fallback("Error", SpotifyLogo)
    case Answered(status, _, song) =>
      if status > 400 then Fallback("Error (Forbidden)", SpotifyLogo)
      else if status == 204 then Fallback("Currently Not Playing", SpotifyLogo)
      else if !Readable(song) then Fallback("Error", SpotifyLogo)
      else
        var item := song.item.value;
        Track(item.durationMs, song.progressMs, ShortenedName(item.name), item.spotifyUrl,
              ArtistNames(item.artists), ArtistLinks(item.artists), item.albumImageUrls[0])
  }

  /** The error check is `status > 400`, so a 400 answer is read as a track. */
  lemma BadRequestIsNotForbidden(reason: string, song: SongJson)
    ensures GetNowPlaying(Answered(400, reason, song)) != Fallback("Error (Forbidden)", SpotifyLogo)
    ensures Readable(song) ==> GetNowPlaying(Answered(400, reason, song)).Track?
  {
  }
}

/**
 * The string helpers of the detail modal (src/components/Modal.tsx): video
 * link detection and rewriting to an embeddable player URL, and the split of
 * a description into displayed paragraphs.
 */
module Media {
  import opened Wrappers
  import opened Sequences

  // ---------------------------------------------------------------------
  // Substrings
  // ---------------------------------------------------------------------

  /** `sub` occurs in `s` starting at position `i`. */
  predicate OccursAt(s: string, sub: string, i: int) {
    0 <= i && i + |sub| <= |s| && s[i..i + |sub|] == sub
  }

  /** `String.prototype.includes`: `sub` occurs somewhere in `s`. */
  function Contains(s: string, sub: string): (r: bool)
    ensures r <==> exists i :: OccursAt(s, sub, i)
    decreases |s|
  {
    if |s| < |sub| then false
    else if s[..|sub|] == sub then
      assert OccursAt(s, sub, 0);
      true
    else
      var rest := Contains(s[1..], sub);
      assert forall i :: 0 < i && OccursAt(s, sub, i) ==> OccursAt(s[1..], sub, i - 1);
      assert forall i :: OccursAt(s[1..], sub, i) ==> OccursAt(s, sub, i + 1);
      rest
  }

  // ---------------------------------------------------------------------
  // Video links
  // ---------------------------------------------------------------------

  const LongHost := "youtube.com/"
  const ShortHost := "youtu.be/"
  const EmbedPrefix := "https://www.youtube.com/embed/"

  /** A video id has exactly this many characters. */
  const IdLength := 11

  /** The characters of JavaScript's `\s` class. */
  predicate IsWhitespace(c: char) {
    c == ' ' || c == '\t' || c == '\n' || c == '\r' || c == '\U{000B}' || c == '\U{000C}'
    || c == '\U{00A0}' || c == '\U{1680}' || ('\U{2000}' <= c <= '\U{200A}')
    || c == '\U{2028}' || c == '\U{2029}' || c == '\U{202F}' || c == '\U{205F}'
    || c == '\U{3000}' || c == '\U{FEFF}'
  }

  /** The characters a regular-expression `.` does not match. */
  predicate IsLineTerminator(c: char) {
    c == '\n' || c == '\r' || c == '\U{2028}' || c == '\U{2029}'
  }

  /** `[^"&?\/\s]`: a character allowed in a video id. */
  predicate IsIdChar(c: char) {
    c != '"' && c != '&' && c != '?' && c != '/' && !IsWhitespace(c)
  }

  /** The id that starts at position `i`: the next eleven characters, when all are id characters. */
  function IdAt(s: string, i: nat): (id: Option<string>)
    ensures id.Some? ==> |id.value| == IdLength && forall k :: 0 <= k < IdLength ==> IsIdChar(id.value[k])
    ensures id.Some? <==> i + IdLength <= |s| && forall k :: i <= k < i + IdLength ==> IsIdChar(s[k])
    ensures id.Some? ==> id.value == s[i..i + IdLength]
  {
    if i + IdLength <= |s| && forall k :: i <= k < i + IdLength ==> IsIdChar(s[k]) then
      Some(s[i..i + IdLength])
    else
      None
  }

  /** `[?&]v=` at position `k`, followed by an id. */
  function QueryAt(s: string, k: nat): Option<string> {
    if k + 3 <= |s| && (s[k] == '?' || s[k] == '&') && s[k + 1] == 'v' && s[k + 2] == '=' then IdAt(s, k + 3)
    else None
  }

  /** The end of the line that position `from` is on: where a `.*` starting there must stop. */
  function LineEnd(s: string, from: nat): (e: nat)
    requires from <= |s|
    ensures from <= e <= |s|
    ensures forall k :: from <= k < e ==> !IsLineTerminator(s[k])
    ensures e < |s| ==> IsLineTerminator(s[e])
    decreases |s| - from
  {
    if from == |s| || IsLineTerminator(s[from]) then from else LineEnd(s, from + 1)
  }

  /**
   * The query `LastQuery` picks on the line from `from` is the last one
   * on that line; when it picks none, no query starts on that line.
   */
  lemma SameLineQuery(s: string, from: nat)
    requires from <= |s|
    ensures var id := LastQuery(s, from, LineEnd(s, from));
            id.Some? ==>
              exists k :: from <= k < |s| && QueryAt(s, k) == id
                          && (forall j :: from <= j < k ==> !IsLineTerminator(s[j]))
                          && (forall j :: k < j < |s| && QueryAt(s, j).Some? ==>
                                exists t :: k < t < j && IsLineTerminator(s[t]))
    ensures LastQuery(s, from, LineEnd(s, from)).None? ==>
              forall k :: from <= k < |s| && (forall j :: from <= j < k ==> !IsLineTerminator(s[j])) ==>
                QueryAt(s, k).None?
  {
    var e := LineEnd(s, from);
    var id := LastQuery(s, from, e);
    if id.Some? {
      var k :| from <= k < e && QueryAt(s, k) == id && forall j :: k < j < e ==> QueryAt(s, j).None?;
      forall j | k < j < |s| && QueryAt(s, j).Some?
        ensures exists t :: k < t < j && IsLineTerminator(s[t])
      {
        // `LastQuery` saw no query after `k` on the line, and `s[e]` starts none.
        assert e < j;
        assert k < e && IsLineTerminator(s[e]);
      }
    } else {
      forall k | from <= k < |s| && (forall j :: from <= j < k ==> !IsLineTerminator(s[j]))
        ensures QueryAt(s, k).None?
      {
        LineEndCovers(s, from, k);
        if k == e {
          assert IsLineTerminator(s[k]);
        }
      }
    }
  }

  /** A line reaches at least as far as the first line terminator from where it starts. */
  lemma {:induction false} LineEndCovers(s: string, from: nat, k: nat)
    requires from <= k <= |s|
    requires forall j :: from <= j < k ==> !IsLineTerminator(s[j])
    ensures k <= LineEnd(s, from)
    decreases k - from
  {
    if from < k {
      LineEndCovers(s, from + 1, k);
    }
  }

  /** The id after the last `[?&]v=` that starts in `[from, hi)`: the greedy `.*` backs off from the right. */
  function LastQuery(s: string, from: nat, hi: nat): (id: Option<string>)
    ensures id.Some? ==> exists k :: from <= k < hi && QueryAt(s, k) == id
                                     && forall j :: k < j < hi ==> QueryAt(s, j).None?
    ensures id.None? ==> forall k :: from <= k < hi ==> QueryAt(s, k).None?
    decreases hi
  {
    if hi <= from then None
    else if QueryAt(s, hi - 1).Some? then QueryAt(s, hi - 1)
    else
      var id := LastQuery(s, from, hi - 1);
      if id.Some? then
        var k :| from <= k < hi - 1 && QueryAt(s, k) == id && forall j :: k < j < hi - 1 ==> QueryAt(s, j).None?;
        assert forall j :: k < j < hi ==> QueryAt(s, j).None?;
        id
      else id
  }

  /**
   * The id the pattern of Modal.tsx captures when its match starts at `i`:
   * after `youtu.be/` the next eleven id characters; after `youtube.com/`
   * the id after the last `?v=` or `&v=` on the same line.
   */
  function MatchAt(s: string, i: nat): (id: Option<string>)
    ensures id.Some? ==> OccursAt(s, ShortHost, i) || OccursAt(s, LongHost, i)
    ensures OccursAt(s, ShortHost, i) ==> id == IdAt(s, i + |ShortHost|)
    ensures !OccursAt(s, ShortHost, i) && OccursAt(s, LongHost, i) && id.Some? ==>
              exists k :: i + |LongHost| <= k < |s| && QueryAt(s, k) == id
                          && (forall j :: i + |LongHost| <= j < k ==> !IsLineTerminator(s[j]))
                          && (forall j :: k < j < |s| && QueryAt(s, j).Some? ==>
                                exists t :: k < t < j && IsLineTerminator(s[t]))
    ensures !OccursAt(s, ShortHost, i) && OccursAt(s, LongHost, i) && id.None? ==>
              forall k :: i + |LongHost| <= k < |s| && (forall j :: i + |LongHost| <= j < k ==> !IsLineTerminator(s[j])) ==>
                QueryAt(s, k).None?
  {
    if OccursAt(s, ShortHost, i) then IdAt(s, i + |ShortHost|)
    else if OccursAt(s, LongHost, i) then
      var from := i + |LongHost|;
      SameLineQuery(s, from);
      LastQuery(s, from, LineEnd(s, from))
    else None
  }

  /** The first (leftmost) match at or after `i`. */
  function FirstMatch(s: string, i: nat): (id: Option<string>)
    ensures id.Some? ==> exists p :: i <= p <= |s| && MatchAt(s, p) == id
                                     && forall q :: i <= q < p ==> MatchAt(s, q).None?
    ensures id.None? ==> forall p :: i <= p <= |s| ==> MatchAt(s, p).None?
    decreases |s| + 1 - i
  {
    if i > |s| then None
    else if MatchAt(s, i).Some? then MatchAt(s, i)
    else FirstMatch(s, i + 1)
  }

  /** The video id extracted from `url`, if the pattern matches. */
  function ExtractId(url: string): (id: Option<string>)
    ensures id.Some? ==> |id.value| == IdLength && forall k :: 0 <= k < IdLength ==> IsIdChar(id.value[k])
    ensures id.Some? ==> exists p :: 0 <= p <= |url| && MatchAt(url, p) == id
                                     && forall q :: 0 <= q < p ==> MatchAt(url, q).None?
    ensures id.None? ==> forall p :: 0 <= p <= |url| ==> MatchAt(url, p).None?
  {
    var id := FirstMatch(url, 0);
    if id.Some? then
      var p :| 0 <= p <= |url| && MatchAt(url, p) == id;
      MatchIsId(url, p);
      id
    else id
  }

  /** Whatever `MatchAt` captures is an eleven-character id. */
  lemma MatchIsId(s: string, i: nat)
    ensures var id := MatchAt(s, i);
            id.Some? ==> |id.value| == IdLength && forall k :: 0 <= k < IdLength ==> IsIdChar(id.value[k])
  {
    if !OccursAt(s, ShortHost, i) && OccursAt(s, LongHost, i) {
      var from := i + |LongHost|;
      var id := LastQuery(s, from, LineEnd(s, from));
      if id.Some? {
        var k :| from <= k < LineEnd(s, from) && QueryAt(s, k) == id;
      }
    }
  }

  /** `isYouTubeVideo`: a link is present and names one of the two video hosts. */
  function IsYouTubeVideo(url: Option<string>): (r: bool)
    ensures r <==> url.Some? && ((exists i :: OccursAt(url.value, "youtube.com", i))
                                 || (exists i :: OccursAt(url.value, "youtu.be", i)))
  {
    url.Some? && (Contains(url.value, "youtube.com") || Contains(url.value, "youtu.be"))
  }

  /** How a missing id is printed by the template literal of Modal.tsx. */
  function IdText(id: Option<string>): (r: string)
    ensures id.Some? ==> r == id.value
    ensures id.None? ==> r == "undefined"
  {
    match id
    case Some(v) => v
    case None => "undefined"
  }

  /**
   * `getYouTubeEmbedUrl`: a link that already contains "embed" is kept;
   * otherwise the player URL is built from the extracted id, and from the
   * text "undefined" when no id is found.
   */
  function EmbedUrl(url: string): (r: string)
    ensures Contains(url, "embed") ==> r == url
    ensures !Contains(url, "embed") ==> |r| > |EmbedPrefix| && r[..|EmbedPrefix|] == EmbedPrefix
    ensures !Contains(url, "embed") && ExtractId(url).Some? ==>
              |r| == |EmbedPrefix| + IdLength && r[|EmbedPrefix|..] == ExtractId(url).value
    ensures !Contains(url, "embed") && ExtractId(url).Some? ==> r == EmbedPrefix + ExtractId(url).value
  {
    if Contains(url, "embed") then url else EmbedPrefix + IdText(ExtractId(url))
  }

  /** The link fails open: without an id the result is the player prefix followed by "undefined". */
  lemma EmbedUrlWithoutId(url: string)
    requires !Contains(url, "embed") && ExtractId(url).None?
    ensures EmbedUrl(url) == EmbedPrefix + "undefined"
  {
  }

  /** No match can start at a character other than the 'y' both host names begin with. */
  lemma NoMatchWithoutY(s: string, q: nat)
    requires q < |s| && s[q] != 'y'
    ensures MatchAt(s, q).None?
  {
  }

  /** A short link: "https://youtu.be/" and an eleven-character id, then anything without "embed". */
  lemma {:induction false} ShortLinkEmbedUrl(id: string, rest: string)
    requires |id| == IdLength && forall k :: 0 <= k < |id| ==> IsIdChar(id[k])
    requires !Contains("https://" + ShortHost + id + rest, "embed")
    ensures ExtractId("https://" + ShortHost + id + rest) == Some(id)
    ensures EmbedUrl("https://" + ShortHost + id + rest) == EmbedPrefix + id
  {
    var url := "https://" + ShortHost + id + rest;
    assert url[..8] == "https://";
    assert url[8..17] == ShortHost;
    assert url[17..28] == id;
    forall q | 0 <= q < 8
      ensures MatchAt(url, q).None?
    {
      assert url[q] == url[..8][q];
      NoMatchWithoutY(url, q);
    }
    assert OccursAt(url, ShortHost, 8);
    assert MatchAt(url, 8) == IdAt(url, 17);
    assert forall j :: 17 <= j < 28 ==> url[j] == id[j - 17];
    assert IdAt(url, 17) == Some(id);
    FirstMatchStopsAt(url, 0, 8);
  }

  /** A watch link: "https://www.youtube.com/watch?v=" and an eleven-character id. */
  lemma {:induction false} WatchLinkEmbedUrl(id: string)
    requires |id| == IdLength && forall k :: 0 <= k < |id| ==> IsIdChar(id[k])
    requires !Contains("https://www." + LongHost + "watch?v=" + id, "embed")
    ensures ExtractId("https://www." + LongHost + "watch?v=" + id) == Some(id)
    ensures EmbedUrl("https://www." + LongHost + "watch?v=" + id) == EmbedPrefix + id
  {
    var url := "https://www." + LongHost + "watch?v=" + id;
    WatchLinkMatch(id);
    FirstMatchStopsAt(url, 0, 12);
  }

  /** In a watch link the leftmost match starts at the host and captures the id. */
  lemma {:induction false} WatchLinkMatch(id: string)
    requires |id| == IdLength && forall k :: 0 <= k < |id| ==> IsIdChar(id[k])
    ensures var url := "https://www." + LongHost + "watch?v=" + id;
            MatchAt(url, 12) == Some(id) && forall q :: 0 <= q < 12 ==> MatchAt(url, q).None?
  {
    var url := "https://www." + LongHost + "watch?v=" + id;
    assert |url| == 43;
    assert url[..12] == "https://www.";
    assert url[12..24] == LongHost;
    assert url[24..32] == "watch?v=";
    assert url[32..] == id;
    forall q | 0 <= q < 12
      ensures MatchAt(url, q).None?
    {
      assert url[q] == url[..12][q];
      NoMatchWithoutY(url, q);
    }
    assert OccursAt(url, LongHost, 12);
    assert !OccursAt(url, ShortHost, 12) by {
      assert url[12..21][5] == url[17] == 'b';
    }
    forall j | 24 <= j < 43
      ensures !IsLineTerminator(url[j])
    {
      if j >= 32 {
        assert url[j] == id[j - 32];
      } else {
        assert url[j] == url[24..32][j - 24];
      }
    }
    LineEndAtEnd(url, 24);
    forall j | 29 < j < 43
      ensures QueryAt(url, j).None?
    {
      if j >= 32 {
        assert url[j] == id[j - 32];
      } else {
        assert url[j] == url[24..32][j - 24];
      }
    }
    assert url[29] == '?' && url[30] == 'v' && url[31] == '=';
    assert forall j :: 32 <= j < 43 ==> url[j] == id[j - 32];
    assert url[32..32 + IdLength] == id;
    assert QueryAt(url, 29) == IdAt(url, 32) == Some(id);
    LastQueryStopsAt(url, 24, 43, 29);
  }

  /** A line with no terminator from `from` on ends at the end of the string. */
  lemma LineEndAtEnd(s: string, from: nat)
    requires from <= |s|
    requires forall k :: from <= k < |s| ==> !IsLineTerminator(s[k])
    ensures LineEnd(s, from) == |s|
  {
  }

  /** The leftmost match is the one at `p` when nothing matches before it. */
  lemma {:induction false} FirstMatchStopsAt(s: string, i: nat, p: nat)
    requires i <= p <= |s| && MatchAt(s, p).Some?
    requires forall q :: i <= q < p ==> MatchAt(s, q).None?
    ensures FirstMatch(s, i) == MatchAt(s, p)
    decreases p - i
  {
    if i < p {
      FirstMatchStopsAt(s, i + 1, p);
    }
  }

  /** The last `[?&]v=` is the one at `k` when none follows it below `hi`. */
  lemma {:induction false} LastQueryStopsAt(s: string, from: nat, hi: nat, k: nat)
    requires from <= k < hi && QueryAt(s, k).Some?
    requires forall j :: k < j < hi ==> QueryAt(s, j).None?
    ensures LastQuery(s, from, hi) == QueryAt(s, k)
    decreases hi
  {
    if k < hi - 1 {
      LastQueryStopsAt(s, from, hi - 1, k);
    }
  }

  /** A link that already contains "embed" is handed to the player unchanged. */
  lemma EmbedLinkPassesThrough(before: string, after: string)
    ensures EmbedUrl(before + "embed" + after) == before + "embed" + after
  {
    var url := before + "embed" + after;
    assert OccursAt(url, "embed", |before|);
  }

  // ---------------------------------------------------------------------
  // Descriptions
  // ---------------------------------------------------------------------

  const ParagraphBreak := "\n\n"

  /** Paragraphs put back together with the break between each two. */
  function Join(parts: seq<string>): string
    decreases |parts|
  {
    if parts == [] then ""
    else if |parts| == 1 then parts[0]
    else parts[0] + ParagraphBreak + Join(parts[1..])
  }

  /**
   * `desc.split('\n\n')`: cut at every break, scanning from the left, so
   * that breaks never overlap. Joining the pieces gives back the text; no
   * piece contains a break; no piece but the last ends in a newline
   * (otherwise that newline would have begun an earlier break).
   */
  function Paragraphs(s: string): (r: seq<string>)
    ensures |r| >= 1
    ensures Join(r) == s
    ensures forall i :: 0 <= i < |r| ==> !Contains(r[i], ParagraphBreak)
    ensures forall i :: 0 <= i < |r| - 1 ==> r[i] == [] || r[i][|r[i]| - 1] != '\n'
    decreases |s|
  {
    if |s| < 2 then
      NoBreakInShort(s);
      [s]
    else if s[..2] == ParagraphBreak then
      var rest := Paragraphs(s[2..]);
      assert s == "" + ParagraphBreak + s[2..];
      NoBreakInShort("");
      [""] + rest
    else
      var rest := Paragraphs(s[1..]);
      var first := [s[0]] + rest[0];
      PrefixOfJoin(rest, s[1..]);
      ExtendPiece(s, rest);
      [first] + rest[1..]
  }

  /** A string shorter than a break holds no break. */
  lemma NoBreakInShort(s: string)
    requires |s| < 2
    ensures !Contains(s, ParagraphBreak)
  {
  }

  /** The first piece of a join is a prefix of it, followed by a break when more pieces follow. */
  lemma PrefixOfJoin(parts: seq<string>, s: string)
    requires |parts| >= 1 && Join(parts) == s
    ensures |parts[0]| <= |s| && s[..|parts[0]|] == parts[0]
    ensures |parts| > 1 ==> |parts[0]| + 2 <= |s| && s[|parts[0]|..|parts[0]| + 2] == ParagraphBreak
    ensures |parts| > 1 ==> Join(parts[1..]) == s[|parts[0]| + 2..]
  {
  }

  /** A join is its first piece followed by the break and the join of the others. */
  lemma JoinFirst(parts: seq<string>)
    requires |parts| >= 1
    ensures Join(parts) == parts[0] + (if |parts| == 1 then "" else ParagraphBreak + Join(parts[1..]))
  {
  }

  /** Putting a character before a piece without a break makes no break unless both start it. */
  lemma {:induction false} NoBreakAfterCons(c: char, p: string)
    requires !Contains(p, ParagraphBreak)
    requires !(c == '\n' && |p| > 0 && p[0] == '\n')
    ensures !Contains([c] + p, ParagraphBreak)
  {
    var q := [c] + p;
    forall i
      ensures !OccursAt(q, ParagraphBreak, i)
    {
      if 0 < i && i + 2 <= |q| {
        assert q[i..i + 2] == p[i - 1..i + 1];
        assert !OccursAt(p, ParagraphBreak, i - 1);
      } else if i == 0 && |q| >= 2 {
        assert q[..2] == [c, p[0]];
      }
    }
  }

  /** The step of `Paragraphs` that extends the first piece by one character. */
  lemma {:induction false} ExtendPiece(s: string, rest: seq<string>)
    requires |s| >= 2 && s[..2] != ParagraphBreak
    requires |rest| >= 1 && Join(rest) == s[1..]
    requires forall i :: 0 <= i < |rest| ==> !Contains(rest[i], ParagraphBreak)
    requires forall i :: 0 <= i < |rest| - 1 ==> rest[i] == [] || rest[i][|rest[i]| - 1] != '\n'
    requires |rest[0]| <= |s| - 1 && s[1..][..|rest[0]|] == rest[0]
    requires |rest| > 1 ==> |rest[0]| + 2 <= |s| - 1 && s[1..][|rest[0]|..|rest[0]| + 2] == ParagraphBreak
    ensures var r := [[s[0]] + rest[0]] + rest[1..];
            && Join(r) == s
            && (forall i :: 0 <= i < |r| ==> !Contains(r[i], ParagraphBreak))
            && (forall i :: 0 <= i < |r| - 1 ==> r[i] == [] || r[i][|r[i]| - 1] != '\n')
  {
    var first := [s[0]] + rest[0];
    var r := [first] + rest[1..];
    ExtendJoin(s, rest);
    ExtendNoBreak(s, rest[0]);
    if |rest| > 1 {
      ExtendLast(s, rest[0]);
    }
    assert forall i :: 1 <= i < |r| ==> r[i] == rest[i];
  }

  /** Joining after the first piece has taken the first character back gives the whole string. */
  lemma {:induction false} ExtendJoin(s: string, rest: seq<string>)
    requires |s| >= 1 && |rest| >= 1 && Join(rest) == s[1..]
    ensures Join([[s[0]] + rest[0]] + rest[1..]) == s
  {
    var r := [[s[0]] + rest[0]] + rest[1..];
    JoinFirst(rest);
    JoinFirst(r);
    assert r[1..] == rest[1..];
    assert Join(r) == [s[0]] + Join(rest);
  }

  /** The extended first piece holds no break: one at its start would be `s[..2]` itself. */
  lemma {:induction false} ExtendNoBreak(s: string, piece: string)
    requires |s| >= 2 && s[..2] != ParagraphBreak
    requires !Contains(piece, ParagraphBreak)
    requires |piece| <= |s| - 1 && s[1..][..|piece|] == piece
    ensures !Contains([s[0]] + piece, ParagraphBreak)
  {
    if |piece| > 0 {
      assert piece[0] == s[1];
      assert s[..2] == [s[0], s[1]];
    }
    NoBreakAfterCons(s[0], piece);
  }

  /**
   * When another piece follows, the extended first piece does not end in a
   * newline: if the old piece was empty, `s[1..3]` is a break, so `s[0]` is
   * no newline.
   */
  lemma {:induction false} ExtendLast(s: string, piece: string)
    requires |s| >= 2 && s[..2] != ParagraphBreak
    requires piece == [] || piece[|piece| - 1] != '\n'
    requires |piece| + 2 <= |s| - 1 && s[1..][|piece|..|piece| + 2] == ParagraphBreak
    ensures ([s[0]] + piece)[|piece|] != '\n'
  {
    if piece == [] {
      assert s[1..][0..2] == ParagraphBreak;
      assert s[1] == '\n' && s[..2] == [s[0], s[1]];
    }
  }

  /** `/[a-zA-Z]/.test(text)`: the text holds an ASCII letter. */
  function ContainsEnglish(t: string): (r: bool)
    ensures r <==> exists i :: 0 <= i < |t| && IsAsciiLetter(t[i])
    decreases |t|
  {
    if t == [] then false
    else IsAsciiLetter(t[0]) || ContainsEnglish(t[1..])
  }

  predicate IsAsciiLetter(c: char) {
    ('a' <= c <= 'z') || ('A' <= c <= 'Z')
  }

  /** `formatParagraph`'s display text: a newline is put before a paragraph with Latin letters. */
  function DisplayText(t: string): (r: string)
    ensures |r| >= |t| && r[|r| - |t|..] == t
    ensures |r| == |t| + 1 <==> ContainsEnglish(t)
    ensures |r| == |t| <==> !ContainsEnglish(t)
  {
    if ContainsEnglish(t) then "\n" + t else t
  }

  /** Taking the display newline back off: the left inverse of `DisplayText`. */
  function Undisplay(r: string): string {
    if |r| > 0 && r[0] == '\n' && ContainsEnglish(r) then r[1..] else r
  }

  lemma UndisplayDisplay(t: string)
    ensures Undisplay(DisplayText(t)) == t
  {
    if ContainsEnglish(t) {
      var i :| 0 <= i < |t| && IsAsciiLetter(t[i]);
      assert ("\n" + t)[i + 1] == t[i];
    }
  }

  /** A modal description: one text, or already a list of paragraphs. */
  datatype Description = Text(text: string) | Items(items: seq<string>)

  /** `formatDescription`: the display text of each paragraph, one per piece or item, in order. */
  function FormatDescription(d: Description): (r: seq<string>)
    ensures d.Items? ==> |r| == |d.items| && forall i :: 0 <= i < |r| ==> r[i] == DisplayText(d.items[i])
    ensures d.Text? ==> |r| == |Paragraphs(d.text)|
                        && forall i :: 0 <= i < |r| ==> r[i] == DisplayText(Paragraphs(d.text)[i])
    ensures d.Items? ==> forall i :: 0 <= i < |r| ==> Undisplay(r[i]) == d.items[i]
    ensures d.Text? ==> Join(Map(r, Undisplay)) == d.text
  {
    var parts := match d case Text(s) => Paragraphs(s) case Items(xs) => xs;
    DisplayRoundTrip(parts);
    Map(parts, DisplayText)
  }

  /** Undoing the display texts of a list of paragraphs gives the list back. */
  lemma DisplayRoundTrip(parts: seq<string>)
    ensures Map(Map(parts, DisplayText), Undisplay) == parts
  {
    var r := Map(parts, DisplayText);
    forall i | 0 <= i < |parts|
      ensures Undisplay(r[i]) == parts[i]
    {
      UndisplayDisplay(parts[i]);
    }
  }
}

/** A dedicated scanner for the one regular expression the bot uses,
    `<a href="index\.php\?Id=(\d+)">(.*?)<\/a>`, with the semantics of Go's
    `FindAllStringSubmatch(body, -1)`: leftmost matches, non-overlapping,
    left to right; `\d` is an ASCII digit, `.` is anything but a newline,
    and `.*?` is lazy, so the name ends at the first `</a>`. */
module AnchorScan {
  import opened Wrappers
  import opened Text

  const Open: string := "<a href=\"index.php?Id="
  const Mid: string := "\">"
  const Close: string := "</a>"

  /** `s` holds `w` at position `p`. */
  predicate At(s: string, p: nat, w: string) {
    p + |w| <= |s| && s[p..p + |w|] == w
  }

  /** One match: where it starts and ends in the body, group 1 (`digits`)
      and group 2 (`name`). */
  datatype Anchor = Anchor(start: nat, digits: string, name: string, end: nat)

  /** A name the lazy group can capture whole: no newline, and no `</a>`
      starts inside it (counting one that would run into the closing tag). */
  predicate LazyName(name: string) {
    NewlineFree(name) && forall k :: 0 <= k < |name| ==> !At(name + Close, k, Close)
  }

  /** The pattern, stated declaratively: `a` is the match of the pattern
      that starts at `a.start` in `s`, read as the five consecutive pieces
      `Open`, group 1, `Mid`, group 2, `Close`. */
  ghost predicate IsAnchorAt(s: string, a: Anchor) {
    var q := a.start + |Open|;
    var e := q + |a.digits|;
    var n := e + |Mid|;
    var k := n + |a.name|;
    a.end == k + |Close| &&
    At(s, a.start, Open) && At(s, q, a.digits) && At(s, e, Mid) && At(s, n, a.name) && At(s, k, Close) &&
    |a.digits| > 0 && AllDigits(a.digits) &&
    LazyName(a.name)
  }

  /** `s` holds a digit at `j`. */
  predicate DigitAt(s: string, j: nat)
    requires j < |s|
  {
    IsDigit(s[j])
  }

  /** The end of the run of digits that starts at `i`. */
  function DigitRun(s: string, i: nat): (e: nat)
    requires i <= |s|
    ensures i <= e <= |s|
    ensures forall j :: i <= j < e ==> DigitAt(s, j)
    ensures e < |s| ==> !DigitAt(s, e)
    decreases |s| - i
  {
    if i < |s| && IsDigit(s[i]) then DigitRun(s, i + 1) else i
  }

  /** The lazy group cannot run past `j`: a newline or a `</a>` is there. */
  predicate NameStop(s: string, j: nat)
    requires j < |s|
  {
    s[j] == '\n' || At(s, j, Close)
  }

  /** Where the lazy `(.*?)<\/a>` that starts at `i` stops: the first `</a>`
      at or after `i`, unless a newline comes before it. */
  function CloseAfter(s: string, i: nat): (r: Option<nat>)
    requires i <= |s|
    ensures r.Some? ==> i <= r.value && At(s, r.value, Close)
    ensures r.Some? ==> forall j :: i <= j < r.value ==> !NameStop(s, j)
    decreases |s| - i
  {
    if At(s, i, Close) then Some(i)
    else if i == |s| || s[i] == '\n' then None
    else CloseAfter(s, i + 1)
  }

  /** The match that starts at `p`, if any: `Open`, then a non-empty digit
      run, then `Mid`, then the lazy name up to its `Close`. */
  function MatchAt(s: string, p: nat): (r: Option<Anchor>)
    requires p <= |s|
    ensures r.Some? ==> r.value.start == p < r.value.end <= |s|
  {
    if !At(s, p, Open) then None else MatchGroups(s, p, DigitRun(s, p + |Open|))
  }

  /** The rest of a match whose `Open` is at `p` and whose digit run ends
      at `e`. */
  function MatchGroups(s: string, p: nat, e: nat): (r: Option<Anchor>)
    requires p + |Open| <= e <= |s|
    ensures r.Some? ==> r.value.start == p < r.value.end <= |s|
  {
    if e == p + |Open| || !At(s, e, Mid) then None
    else MatchName(s, p, e, CloseAfter(s, e + |Mid|))
  }

  /** The match once the closing tag after `Mid` has been looked for. */
  function MatchName(s: string, p: nat, e: nat, close: Option<nat>): (r: Option<Anchor>)
    requires p + |Open| <= e && e + |Mid| <= |s|
    requires close.Some? ==> e + |Mid| <= close.value && close.value + |Close| <= |s|
    ensures r.Some? ==> r.value.start == p < r.value.end <= |s|
  {
    match close
    case None => None
    case Some(k) => Some(Anchor(p, s[p + |Open|..e], s[e + |Mid|..k], k + |Close|))
  }

  /** `FindAllStringSubmatch` from position `from` on. */
  function FindAll(s: string, from: nat): seq<Anchor>
    requires from <= |s|
    decreases |s| - from
  {
    if from == |s| then []
    else
      match MatchAt(s, from)
      case Some(a) => [a] + FindAll(s, a.end)
      case None => FindAll(s, from + 1)
  }

  // ----- MatchAt agrees with the pattern -----

  lemma Slices(s: string, a: nat, b: nat, c: nat)
    requires a <= b <= c <= |s|
    ensures s[a..c] == s[a..b] + s[b..c]
  {
  }

  /** Inside a window `t` of `s` at offset `o`, finding `w` in `t` is
      finding it in `s`. */
  lemma AtWindow(s: string, o: nat, t: string, k: nat, w: string)
    requires o + |t| <= |s| && s[o..o + |t|] == t
    requires k + |w| <= |t|
    ensures At(t, k, w) <==> At(s, o + k, w)
  {
    forall i | k <= i < k + |w| ensures t[i] == s[o + i] {
      assert t[i] == s[o..o + |t|][i];
    }
    assert t[k..k + |w|] == s[o + k..o + k + |w|];
  }

  lemma {:induction false} DigitRunIs(s: string, i: nat, e: nat)
    requires i <= e < |s|
    requires forall j :: i <= j < e ==> DigitAt(s, j)
    requires !DigitAt(s, e)
    ensures DigitRun(s, i) == e
    decreases e - i
  {
    if i < e {
      DigitRunIs(s, i + 1, e);
    }
  }

  lemma {:induction false} CloseAfterIs(s: string, i: nat, k: nat)
    requires i <= k && At(s, k, Close)
    requires forall j :: i <= j < k ==> !NameStop(s, j)
    ensures CloseAfter(s, i) == Some(k)
    decreases k - i
  {
    if i < k {
      assert !NameStop(s, i);
      CloseAfterIs(s, i + 1, k);
    }
  }

  /** The text of group 2 followed by `</a>` is lazy exactly when no `</a>`
      starts in `s` inside the name. */
  lemma LazyNameInBody(s: string, n: nat, name: string)
    requires At(s, n, name) && At(s, n + |name|, Close)
    ensures s[n..n + |name| + |Close|] == name + Close
    ensures forall j :: 0 <= j < |name| ==> (At(name + Close, j, Close) <==> At(s, n + j, Close))
  {
    Slices(s, n, n + |name|, n + |name| + |Close|);
    forall j | 0 <= j < |name| ensures At(name + Close, j, Close) <==> At(s, n + j, Close) {
      AtWindow(s, n, name + Close, j, Close);
    }
  }

  lemma MatchAtStage(s: string, p: nat)
    requires p <= |s| && At(s, p, Open)
    ensures MatchAt(s, p) == MatchGroups(s, p, DigitRun(s, p + |Open|))
  {
  }

  lemma MatchGroupsStage(s: string, p: nat, e: nat)
    requires p + |Open| < e <= |s| && At(s, e, Mid)
    ensures MatchGroups(s, p, e) == MatchName(s, p, e, CloseAfter(s, e + |Mid|))
  {
  }

  lemma MatchNameStage(s: string, p: nat, e: nat, k: nat)
    requires p + |Open| <= e && e + |Mid| <= k && k + |Close| <= |s|
    ensures MatchName(s, p, e, Some(k)) == Some(Anchor(p, s[p + |Open|..e], s[e + |Mid|..k], k + |Close|))
  {
  }

  /** A match the scanner reports, taken apart into the three steps of the
      scan: the digit run ends at `e` and the closing tag starts at `k`. */
  lemma MatchAtParts(s: string, p: nat) returns (e: nat, k: nat)
    requires p <= |s| && MatchAt(s, p).Some?
    ensures At(s, p, Open) && e == DigitRun(s, p + |Open|) && p + |Open| < e && At(s, e, Mid)
    ensures CloseAfter(s, e + |Mid|) == Some(k)
    ensures MatchAt(s, p) == Some(Anchor(p, s[p + |Open|..e], s[e + |Mid|..k], k + |Close|))
  {
    MatchAtStage(s, p);
    e := DigitRun(s, p + |Open|);
    MatchGroupsStage(s, p, e);
    k := CloseAfter(s, e + |Mid|).value;
    MatchNameStage(s, p, e, k);
  }

  /** The scanner reports the match that the three steps of the scan find. */
  lemma MatchAtFinds(s: string, p: nat, e: nat, k: nat)
    requires At(s, p, Open) && e == DigitRun(s, p + |Open|) && p + |Open| < e && At(s, e, Mid)
    requires CloseAfter(s, e + |Mid|) == Some(k)
    ensures MatchAt(s, p) == Some(Anchor(p, s[p + |Open|..e], s[e + |Mid|..k], k + |Close|))
  {
    MatchAtStage(s, p);
    MatchGroupsStage(s, p, e);
    MatchNameStage(s, p, e, k);
  }

  /** The pieces the scanner finds form an instance of the pattern. */
  lemma ScannedAnchor(s: string, p: nat, e: nat, k: nat)
    requires At(s, p, Open) && p + |Open| < e && At(s, e, Mid) && e + |Mid| <= k && At(s, k, Close)
    requires forall j :: p + |Open| <= j < e ==> DigitAt(s, j)
    requires forall j :: e + |Mid| <= j < k ==> !NameStop(s, j)
    ensures IsAnchorAt(s, Anchor(p, s[p + |Open|..e], s[e + |Mid|..k], k + |Close|))
  {
    var q := p + |Open|;
    var n := e + |Mid|;
    var digits, name := s[q..e], s[n..k];
    assert AllDigits(digits) by {
      forall j | 0 <= j < |digits| ensures IsDigit(digits[j]) {
        assert digits[j] == s[q + j] && DigitAt(s, q + j);
      }
    }
    LazyNameInBody(s, n, name);
    forall j | 0 <= j < |name| ensures name[j] != '\n' && !At(name + Close, j, Close) {
      assert name[j] == s[n + j] && !NameStop(s, n + j);
    }
  }

  /** Every match the scanner reports is an instance of the pattern. */
  lemma MatchAtSound(s: string, p: nat)
    requires p <= |s| && MatchAt(s, p).Some?
    ensures IsAnchorAt(s, MatchAt(s, p).value)
  {
    var e, k := MatchAtParts(s, p);
    ScannedAnchor(s, p, e, k);
  }

  /** Group 1 of an instance is the whole digit run after `Open`. */
  lemma DigitsOfAnchor(s: string, a: Anchor, q: nat, e: nat)
    requires IsAnchorAt(s, a) && q == a.start + |Open| && e == q + |a.digits|
    ensures DigitRun(s, q) == e
  {
    forall j | q <= j < e ensures DigitAt(s, j) {
      assert s[j] == s[q..e][j - q];
    }
    assert s[e] == s[e..e + |Mid|][0];
    assert !DigitAt(s, e);
    DigitRunIs(s, q, e);
  }


  /** Group 2 of an instance ends at the first `</a>` after `Mid`. */
  lemma NameOfAnchor(s: string, a: Anchor, n: nat, k: nat)
    requires IsAnchorAt(s, a) && n == a.start + |Open| + |a.digits| + |Mid| && k == n + |a.name|
    ensures CloseAfter(s, n) == Some(k)
  {
    LazyNameInBody(s, n, a.name);
    forall j | n <= j < k ensures !NameStop(s, j) {
      assert s[j] == s[n..k][j - n];
      assert !At(a.name + Close, j - n, Close);
      assert At(a.name + Close, j - n, Close) <==> At(s, n + (j - n), Close);
    }
    CloseAfterIs(s, n, k);
  }


  /** The groups of an instance are the slices between its delimiters. */
  lemma InstanceSlices(s: string, a: Anchor, e: nat, k: nat)
    requires IsAnchorAt(s, a) && e == a.start + |Open| + |a.digits| && k == e + |Mid| + |a.name|
    ensures At(s, a.start, Open) && At(s, e, Mid)
    ensures a == Anchor(a.start, s[a.start + |Open|..e], s[e + |Mid|..k], k + |Close|)
  {
  }


  /** An instance of the pattern, taken apart into what the three steps of
      the scan find at its start. */
  lemma InstanceParts(s: string, a: Anchor) returns (e: nat, k: nat)
    requires IsAnchorAt(s, a)
    ensures At(s, a.start, Open) && e == DigitRun(s, a.start + |Open|) && a.start + |Open| < e && At(s, e, Mid)
    ensures CloseAfter(s, e + |Mid|) == Some(k)
    ensures a == Anchor(a.start, s[a.start + |Open|..e], s[e + |Mid|..k], k + |Close|)
  {
    e := a.start + |Open| + |a.digits|;
    k := e + |Mid| + |a.name|;
    InstanceSlices(s, a, e, k);
    DigitsOfAnchor(s, a, a.start + |Open|, e);
    NameOfAnchor(s, a, e + |Mid|, k);
  }

  /** Every instance of the pattern is what the scanner reports at its start. */
  lemma MatchAtComplete(s: string, a: Anchor)
    requires IsAnchorAt(s, a)
    ensures MatchAt(s, a.start) == Some(a)
  {
    var e, k := InstanceParts(s, a);
    MatchAtFinds(s, a.start, e, k);
  }

  // ----- FindAll is leftmost, non-overlapping and complete -----

  lemma FindAllTake(s: string, from: nat, m: Anchor)
    requires from < |s| && MatchAt(s, from) == Some(m)
    ensures FindAll(s, from) == [m] + FindAll(s, m.end)
  {
  }

  lemma FindAllSkip(s: string, from: nat)
    requires from < |s| && MatchAt(s, from).None?
    ensures FindAll(s, from) == FindAll(s, from + 1)
  {
  }

  /** What `FindAll` returns from `from` on are instances of the pattern,
      in order and without overlap, none starting before `from`. */
  lemma {:induction false} FindAllSound(s: string, from: nat)
    requires from <= |s|
    ensures forall i :: 0 <= i < |FindAll(s, from)| ==>
      IsAnchorAt(s, FindAll(s, from)[i]) && from <= FindAll(s, from)[i].start
    ensures forall i :: 0 <= i < |FindAll(s, from)| - 1 ==>
      FindAll(s, from)[i].end <= FindAll(s, from)[i + 1].start
    decreases |s| - from
  {
    if from < |s| {
      match MatchAt(s, from)
      case Some(m) =>
        MatchAtSound(s, from);
        FindAllSound(s, m.end);
        FindAllTake(s, from, m);
      case None =>
        FindAllSound(s, from + 1);
        FindAllSkip(s, from);
    }
  }

  /** Group 1 of every reported match is a non-empty digit string. */
  predicate DigitGroup(a: Anchor) {
    |a.digits| > 0 && AllDigits(a.digits)
  }

  lemma FindAllDigits(s: string, from: nat)
    requires from <= |s|
    ensures forall i :: 0 <= i < |FindAll(s, from)| ==> DigitGroup(FindAll(s, from)[i])
  {
    FindAllSound(s, from);
  }

  /** Position `p` lies inside one of `anchors`. */
  predicate Covers(anchors: seq<Anchor>, p: nat) {
    exists i :: 0 <= i < |anchors| && anchors[i].start <= p < anchors[i].end
  }

  lemma CoversCons(m: Anchor, rest: seq<Anchor>, p: nat)
    requires m.start <= p < m.end || Covers(rest, p)
    ensures Covers([m] + rest, p)
  {
    var r := [m] + rest;
    if m.start <= p < m.end {
      assert r[0] == m;
    } else {
      var i :| 0 <= i < |rest| && rest[i].start <= p < rest[i].end;
      assert r[i + 1] == rest[i];
    }
  }

  /** A position where the scanner would match, at or after `from`, lies
      inside one of the matches `FindAll` reports from `from` on. */
  lemma {:induction false} FindAllCovers(s: string, from: nat, p: nat)
    requires from <= p <= |s| && MatchAt(s, p).Some?
    ensures Covers(FindAll(s, from), p)
    decreases |s| - from
  {
    if from == |s| {
      assert false;
    } else {
      match MatchAt(s, from)
      case Some(m) =>
        FindAllTake(s, from, m);
        if m.end <= p {
          FindAllCovers(s, m.end, p);
        }
        CoversCons(m, FindAll(s, m.end), p);
      case None =>
        FindAllCovers(s, from + 1, p);
        FindAllSkip(s, from);
    }
  }

  /** Nothing is skipped: every instance of the pattern at or after `from`
      starts inside one of the reported matches (it is reported itself, or
      an earlier match overlaps it). */
  lemma FindAllLeftmost(s: string, from: nat, a: Anchor)
    requires from <= |s|
    requires IsAnchorAt(s, a) && from <= a.start
    ensures Covers(FindAll(s, from), a.start)
  {
    MatchAtComplete(s, a);
    FindAllCovers(s, from, a.start);
  }

  // ----- rendering anchors and scanning them back -----

  /** The HTML of one search-result anchor. */
  function AnchorHtml(digits: string, name: string): string {
    Open + digits + Mid + name + Close
  }

  /** A result list rendered as consecutive anchors. */
  function RenderedAnchors(entries: seq<(string, string)>): string {
    if entries == [] then "" else AnchorHtml(entries[0].0, entries[0].1) + RenderedAnchors(entries[1..])
  }

  predicate Scannable(entries: seq<(string, string)>) {
    forall i :: 0 <= i < |entries| ==>
      |entries[i].0| > 0 && AllDigits(entries[i].0) && LazyName(entries[i].1)
  }

  /** The groups of a list of matches. */
  function Groups(anchors: seq<Anchor>): seq<(string, string)> {
    if anchors == [] then [] else [(anchors[0].digits, anchors[0].name)] + Groups(anchors[1..])
  }

  lemma GroupsCons(a: Anchor, rest: seq<Anchor>)
    ensures Groups([a] + rest) == [(a.digits, a.name)] + Groups(rest)
  {
    assert ([a] + rest)[1..] == rest;
  }

  lemma AnchorAtFront(prefix: string, digits: string, name: string, rest: string)
    requires |digits| > 0 && AllDigits(digits) && LazyName(name)
    ensures IsAnchorAt(prefix + AnchorHtml(digits, name) + rest,
      Anchor(|prefix|, digits, name, |prefix + AnchorHtml(digits, name)|))
  {
    var s := prefix + AnchorHtml(digits, name) + rest;
    assert s[|prefix|..|prefix + AnchorHtml(digits, name)|] == AnchorHtml(digits, name);
  }

  /** Scanning rendered anchors gives back exactly their groups, in order:
      the scanner and the renderer are inverse on well-formed entries. */
  lemma {:induction false} ScanRendered(prefix: string, entries: seq<(string, string)>)
    requires Scannable(entries)
    ensures Groups(FindAll(prefix + RenderedAnchors(entries), |prefix|)) == entries
    decreases |entries|
  {
    var s := prefix + RenderedAnchors(entries);
    if entries == [] {
      assert s == prefix;
    } else {
      var (digits, name) := entries[0];
      var html := AnchorHtml(digits, name);
      var rest := RenderedAnchors(entries[1..]);
      assert s == prefix + html + rest;
      AnchorAtFront(prefix, digits, name, rest);
      var a := Anchor(|prefix|, digits, name, |prefix + html|);
      MatchAtComplete(s, a);
      assert |s| > |prefix|;
      FindAllTake(s, |prefix|, a);
      assert s == (prefix + html) + rest;
      ScanRendered(prefix + html, entries[1..]);
      GroupsCons(a, FindAll(s, a.end));
      assert entries == [(digits, name)] + entries[1..];
    }
  }
}

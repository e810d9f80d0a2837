/**
 * The calendar-link picker: the first anchor of the landing page, in
 * document order, whose trimmed and normalized text contains
 * "calendario academico" and whose href is non-empty.
 */
module LinkPicker {
  import opened Common

  /** An anchor of the page: its text content and its href attribute, if any. */
  datatype Anchor = Anchor(text: string, href: Option<string>)

  const Phrase: string := "calendario academico"

  /** The white space and line terminators that JavaScript's `trim` removes. */
  predicate IsTrimmed(c: char)
  {
    c == '\t' || c == '\n' || c == '\U{B}' || c == '\U{C}' || c == '\r' || c == ' '
    || c == '\U{A0}' || c == '\U{1680}' || ('\U{2000}' <= c <= '\U{200A}')
    || c == '\U{2028}' || c == '\U{2029}' || c == '\U{202F}' || c == '\U{205F}'
    || c == '\U{3000}' || c == '\U{FEFF}'
  }

  /** Drops leading white space. */
  function TrimStart(s: string): string
  {
    if s != [] && IsTrimmed(s[0]) then TrimStart(s[1..]) else s
  }

  /** Drops trailing white space. */
  function TrimEnd(s: string): string
  {
    if s != [] && IsTrimmed(s[|s| - 1]) then TrimEnd(s[..|s| - 1]) else s
  }

  /** `s.trim()`. */
  function Trim(s: string): string
  {
    TrimEnd(TrimStart(s))
  }

  /** What TrimStart leaves is a suffix of `s` that does not start with white space, and it removed only white space. */
  lemma {:induction false} TrimStartIsSuffix(s: string)
    ensures var r := TrimStart(s);
      && |r| <= |s| && r == s[|s| - |r|..]
      && (forall i :: 0 <= i < |s| - |r| ==> IsTrimmed(s[i]))
      && (r == [] || !IsTrimmed(r[0]))
  {
    if s != [] && IsTrimmed(s[0]) {
      var rest := s[1..];
      TrimStartIsSuffix(rest);
      var r := TrimStart(rest);
      assert TrimStart(s) == r;
      assert r == s[|s| - |r|..] by {
        assert rest[|rest| - |r|..] == s[|s| - |r|..];
      }
      forall i | 0 <= i < |s| - |r|
        ensures IsTrimmed(s[i])
      {
        if i > 0 {
          assert s[i] == rest[i - 1];
        }
      }
    }
  }

  /** What TrimEnd leaves is a prefix of `s` that does not end with white space, and it removed only white space. */
  lemma {:induction false} TrimEndIsPrefix(s: string)
    ensures var r := TrimEnd(s);
      && |r| <= |s| && r == s[..|r|]
      && (forall i :: |r| <= i < |s| ==> IsTrimmed(s[i]))
      && (r == [] || !IsTrimmed(r[|r| - 1]))
  {
    if s != [] && IsTrimmed(s[|s| - 1]) {
      var front := s[..|s| - 1];
      TrimEndIsPrefix(front);
      var r := TrimEnd(front);
      assert TrimEnd(s) == r;
      assert r == s[..|r|] by {
        assert front[..|r|] == s[..|r|];
      }
      forall i | |r| <= i < |s|
        ensures IsTrimmed(s[i])
      {
        if i < |s| - 1 {
          assert s[i] == front[i];
        }
      }
    }
  }

  /** Trimming keeps the middle of the text and removes white space only from both ends. */
  lemma TrimIsMiddle(s: string)
    ensures var r := Trim(s);
      var lo := |s| - |TrimStart(s)|;
      && 0 <= lo <= |s| - |r| && r == s[lo..lo + |r|]
      && (forall i :: 0 <= i < lo ==> IsTrimmed(s[i]))
      && (forall i :: lo + |r| <= i < |s| ==> IsTrimmed(s[i]))
      && (r == [] || (!IsTrimmed(r[0]) && !IsTrimmed(r[|r| - 1])))
  {
    var t := TrimStart(s);
    TrimStartIsSuffix(s);
    TrimEndIsPrefix(t);
    var r := TrimEnd(t);
    var lo := |s| - |t|;
    assert r == s[lo..lo + |r|] by {
      assert t == s[lo..];
      assert r == t[..|r|];
    }
    forall i | lo + |r| <= i < |s|
      ensures IsTrimmed(s[i])
    {
      assert s[i] == t[i - lo];
    }
    if r != [] {
      assert r[0] == t[0];
    }
  }

  predicate IsPrefix(p: string, s: string)
  {
    |p| <= |s| && s[..|p|] == p
  }

  /** `s.includes(p)`. */
  predicate Contains(s: string, p: string)
    decreases |s|
  {
    IsPrefix(p, s) || (s != [] && Contains(s[1..], p))
  }

  /** An occurrence of `p` at any position of `s` makes `Contains` hold. */
  lemma {:induction false} ContainsAt(s: string, p: string, k: nat)
    requires k + |p| <= |s|
    ensures s[k..k + |p|] == p ==> Contains(s, p)
  {
    if k > 0 && s[k..k + |p|] == p {
      assert s[1..][k - 1..k - 1 + |p|] == s[k..k + |p|];
      ContainsAt(s[1..], p, k - 1);
    }
  }

  /** Conversely, when `Contains` holds, `p` occurs at the position returned. */
  lemma {:induction false} ContainsHasOccurrence(s: string, p: string) returns (k: nat)
    requires Contains(s, p)
    ensures k + |p| <= |s| && s[k..k + |p|] == p
    decreases |s|
  {
    if IsPrefix(p, s) {
      k := 0;
    } else {
      var j := ContainsHasOccurrence(s[1..], p);
      assert s[1..][j..j + |p|] == s[j + 1..j + 1 + |p|];
      k := j + 1;
    }
  }

  /** The anchor's text, trimmed and normalized, contains the phrase. */
  predicate Matches(a: Anchor, normalize: string -> string)
  {
    Contains(normalize(Trim(a.text)), Phrase)
  }

  /** The anchor is the calendar link: it matches and has a non-empty href. */
  predicate Qualifies(a: Anchor, normalize: string -> string)
  {
    Matches(a, normalize) && a.href.Some? && a.href.value != ""
  }

  /** The position of the first qualifying anchor, if there is one. */
  function FirstQualifying(anchors: seq<Anchor>, normalize: string -> string): (r: Option<nat>)
    ensures r.Some? ==> r.value < |anchors| && Qualifies(anchors[r.value], normalize)
    ensures r.Some? ==> forall j :: 0 <= j < r.value ==> !Qualifies(anchors[j], normalize)
    ensures r.None? ==> forall j :: 0 <= j < |anchors| ==> !Qualifies(anchors[j], normalize)
  {
    if anchors == [] then None
    else if Qualifies(anchors[0], normalize) then Some(0)
    else match FirstQualifying(anchors[1..], normalize)
      case None => None
      case Some(i) => Some(i + 1)
  }

  /** The href the picker returns: that of the first qualifying anchor, or nothing. */
  function CalendarLink(anchors: seq<Anchor>, normalize: string -> string): (r: Option<string>)
    ensures r.Some? ==> r.value != ""
    ensures r.None? <==> forall j :: 0 <= j < |anchors| ==> !Qualifies(anchors[j], normalize)
  {
    match FirstQualifying(anchors, normalize)
    case None => None
    case Some(i) => anchors[i].href
  }

  /**
   * The loop of getCalendarLink: walks the anchors in document order and
   * returns the first qualifying href; a matching anchor without an href,
   * or with an empty one, is passed over.
   */
  method FindCalendarLink(anchors: seq<Anchor>, normalize: string -> string) returns (link: Option<string>)
    ensures link == CalendarLink(anchors, normalize)
    ensures link.Some? ==> exists i :: (0 <= i < |anchors| && Qualifies(anchors[i], normalize)
      && anchors[i].href == link
      && forall j :: 0 <= j < i ==> !Qualifies(anchors[j], normalize))
    ensures link.None? ==> forall j :: 0 <= j < |anchors| ==> !Qualifies(anchors[j], normalize)
  {
    for i := 0 to |anchors|
      invariant forall j :: 0 <= j < i ==> !Qualifies(anchors[j], normalize)
    {
      var text := Trim(anchors[i].text);
      var normalized := normalize(text);
      if Contains(normalized, Phrase) {
        var href := anchors[i].href;
        if href.Some? && href.value != "" {
          assert Qualifies(anchors[i], normalize);
          return href;
        }
      }
    }
    return None;
  }

  /** A qualifying anchor wins over everything after it. */
  lemma FirstMatchWins(a: Anchor, rest: seq<Anchor>, normalize: string -> string)
    requires Qualifies(a, normalize)
    ensures CalendarLink([a] + rest, normalize) == a.href
  {
  }

  /** A matching anchor whose href is missing or empty is skipped: the answer is that of the anchors after it. */
  lemma HreflessMatchSkipped(a: Anchor, rest: seq<Anchor>, normalize: string -> string)
    requires a.href == None || a.href == Some("")
    ensures CalendarLink([a] + rest, normalize) == CalendarLink(rest, normalize)
  {
    assert ([a] + rest)[1..] == rest;
  }

  /** The link of a page split in two is the first part's link, or else the second part's. */
  lemma {:induction false} CalendarLinkAppend(xs: seq<Anchor>, ys: seq<Anchor>, normalize: string -> string)
    ensures CalendarLink(xs + ys, normalize)
      == if CalendarLink(xs, normalize).Some? then CalendarLink(xs, normalize) else CalendarLink(ys, normalize)
  {
    if xs == [] {
      assert xs + ys == ys;
    } else {
      assert (xs + ys)[1..] == xs[1..] + ys;
      assert (xs + ys)[0] == xs[0];
      CalendarLinkAppend(xs[1..], ys, normalize);
    }
  }
}

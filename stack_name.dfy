/**
 * The stack-name prefix derived from the site's domain, `formatDomainForStackName`.
 * Both deployment entry points (the static-page one and the Next.js one) carry the
 * same text of this function, so one definition models both.
 * The function drops the last `.` of the domain and upper-cases the first character
 * and the character that followed that dot: `example.com` becomes `ExampleCom`.
 * Its behaviour on domains without a dot, or whose only dot is the first character,
 * follows from the JavaScript meaning of `lastIndexOf`, `charAt` and `slice`, and
 * is pinned down by the lemmas below.
 */
module StackName {
  import opened Wrappers
  import opened JsString

  /** The domain read from the environment: `None` is `undefined`. */
  function FormatDomainForStackName(domainName: Option<string>): string {
    if domainName.None? || |domainName.value| == 0 then ""
    else
      var d := domainName.value;
      var periodIndex := LastIndexOf(d, '.');
      ToUpperCase(CharAt(d, 0)) + Slice(d, 1, periodIndex) +
        ToUpperCase(CharAt(d, periodIndex + 1)) + SliceFrom(d, periodIndex + 2)
  }

  /** An undefined or empty domain gives the empty prefix; any other domain a non-empty one. */
  lemma EmptyOnlyForMissingDomain(domainName: Option<string>)
    ensures FormatDomainForStackName(domainName) == "" <==> domainName.None? || domainName.value == ""
  {
    if domainName.Some? && domainName.value != "" {
      var d := domainName.value;
      assert |ToUpperCase(CharAt(d, 0))| == 1;
    }
  }

  function Min(a: int, b: int): int { if a <= b then a else b }

  /** `d` with the character at `p` taken out. */
  function RemoveAt(d: string, p: nat): (r: string)
    requires p < |d|
    ensures |r| == |d| - 1
    ensures forall i :: 0 <= i < p ==> r[i] == d[i]
    ensures forall i :: p <= i < |r| ==> r[i] == d[i + 1]
  {
    d[..p] + d[p + 1..]
  }

  lemma UpperOfOne(c: char)
    ensures ToUpperCase([c]) == [UpperChar(c)]
  {
    assert |ToUpperCase([c])| == 1;
  }

  /** The four pieces the source concatenates, for a non-empty domain. */
  lemma Pieces(d: string)
    requires |d| > 0
    ensures var p := LastIndexOf(d, '.');
            FormatDomainForStackName(Some(d)) ==
              ToUpperCase(CharAt(d, 0)) + Slice(d, 1, p) + ToUpperCase(CharAt(d, p + 1)) + SliceFrom(d, p + 2)
  {
    assert Some(d).Some? && Some(d).value == d;
  }

  /** What `charAt(p + 1).toUpperCase() + slice(p + 2)` yields for an index `p` inside the domain. */
  lemma AfterIndex(d: string, p: int)
    requires 0 <= p < |d|
    ensures ToUpperCase(CharAt(d, p + 1)) == ToUpperCase(d[p + 1..Min(p + 2, |d|)])
    ensures SliceFrom(d, p + 2) == d[Min(p + 2, |d|)..]
  {
    if p + 1 < |d| {
      assert d[p + 1..p + 2] == [d[p + 1]];
    } else {
      assert d[p + 1..p + 1] == [];
    }
  }

  /** The result when the last dot sits after the first character. */
  lemma DotRemovedAndCapitalised(d: string)
    requires LastIndexOf(d, '.') >= 1
    ensures var p := LastIndexOf(d, '.');
            var r := FormatDomainForStackName(Some(d));
            r == [UpperChar(d[0])] + d[1..p] + ToUpperCase(d[p + 1..Min(p + 2, |d|)]) + d[Min(p + 2, |d|)..]
            && |r| == |d| - 1
  {
    var p := LastIndexOf(d, '.');
    Pieces(d);
    UpperOfOne(d[0]);
    assert CharAt(d, 0) == [d[0]];
    assert Slice(d, 1, p) == d[1..p];
    AfterIndex(d, p);
  }

  /** The pieces of the result, read position by position against `d` with `p` taken out. */
  lemma PiecesPointwise(d: string, p: nat)
    requires 1 <= p < |d|
    ensures var m := Min(p + 2, |d|);
            var r := [UpperChar(d[0])] + d[1..p] + ToUpperCase(d[p + 1..m]) + d[m..];
            var rest := RemoveAt(d, p);
            |r| == |rest| &&
            forall i :: 0 <= i < |r| ==>
              r[i] == (if i == 0 || i == p then UpperChar(rest[i]) else rest[i])
  {
    var m := Min(p + 2, |d|);
    var head := [UpperChar(d[0])] + d[1..p];
    var up := ToUpperCase(d[p + 1..m]);
    var r := head + up + d[m..];
    var rest := RemoveAt(d, p);
    assert |head| == p;
    forall i | 0 <= i < |r|
      ensures r[i] == (if i == 0 || i == p then UpperChar(rest[i]) else rest[i])
    {
      if i < p {
        assert r[i] == head[i];
        if i > 0 {
          assert head[i] == d[1..p][i - 1];
        }
      } else if i == p {
        assert r[i] == (head + up)[i] == up[0];
      } else {
        assert r[i] == d[m..][i - p - 1];
      }
    }
  }

  /**
   * Pointwise reference, when the last dot sits at p >= 1 (a leading dot is `LeadingDotKept`):
   * the result is `d` without its last dot, with the first
   * character and the character now standing where the dot was upper-cased; every
   * other character, earlier dots included, keeps its value and its order.
   */
  lemma OnlyFirstAndAfterDotChange(d: string)
    requires LastIndexOf(d, '.') >= 1
    ensures var p := LastIndexOf(d, '.');
            var r := FormatDomainForStackName(Some(d));
            var rest := RemoveAt(d, p);
            |r| == |rest| &&
            forall i :: 0 <= i < |r| ==>
              r[i] == (if i == 0 || i == p then UpperChar(rest[i]) else rest[i])
  {
    DotRemovedAndCapitalised(d);
    PiecesPointwise(d, LastIndexOf(d, '.'));
  }

  /**
   * A dot at the very end of a domain of two or more characters: nothing follows it, so
   * nothing is emitted after the middle slice. (The domain `.` alone is `LeadingDotKept`.)
   */
  lemma TrailingDot(d: string)
    requires |d| >= 2 && d[|d| - 1] == '.'
    ensures var r := FormatDomainForStackName(Some(d));
            r == [UpperChar(d[0])] + d[1..|d| - 1]
  {
    assert LastIndexOf(d, '.') == |d| - 1;
    DotRemovedAndCapitalised(d);
    assert d[|d|..|d|] == [];
  }

  /**
   * No dot: `lastIndexOf` answers -1, so the middle slice `slice(1, -1)` loses the last
   * character, `charAt(0)` is emitted a second time and `slice(1)` repeats the rest.
   */
  lemma NoDotRepeatsFirst(d: string)
    requires d != "" && '.' !in d
    ensures var r := FormatDomainForStackName(Some(d));
            r == [UpperChar(d[0])] + (if |d| >= 2 then d[1..|d| - 1] else "") + [UpperChar(d[0])] + d[1..]
  {
    UpperOfOne(d[0]);
  }

  /**
   * The only dot is the first character: the `charAt(0)` that was meant to be the first
   * letter is the dot itself, so the dot stays, the character after it is upper-cased,
   * and the result is as long as the domain.
   */
  lemma LeadingDotKept(d: string)
    requires |d| >= 1 && LastIndexOf(d, '.') == 0
    ensures var r := FormatDomainForStackName(Some(d));
            r == "." + ToUpperCase(d[1..Min(2, |d|)]) + d[Min(2, |d|)..] && |r| == |d|
  {
    Pieces(d);
    LeadingDotPieces(d);
  }

  lemma LeadingDotPieces(d: string)
    requires |d| >= 1 && d[0] == '.'
    ensures ToUpperCase(CharAt(d, 0)) + Slice(d, 1, 0) + ToUpperCase(CharAt(d, 1)) + SliceFrom(d, 2)
            == "." + ToUpperCase(d[1..Min(2, |d|)]) + d[Min(2, |d|)..]
    ensures |"." + ToUpperCase(d[1..Min(2, |d|)]) + d[Min(2, |d|)..]| == |d|
  {
    var first := ToUpperCase(CharAt(d, 0));
    var middle := Slice(d, 1, 0);
    assert first == "." by {
      UpperOfOne(d[0]);
    }
    assert middle == "";
    assert first + middle == ".";
    AfterIndex(d, 0);
  }

  /** The usual case: `example.com` becomes `ExampleCom`. */
  lemma ExampleApex()
    ensures FormatDomainForStackName(Some("example.com")) == "ExampleCom"
  {
    UpperOfOne('c');
    var d := "example.com";
    assert d[7] == '.' && d[8] != '.' && d[9] != '.' && d[10] != '.';
    DotRemovedAndCapitalised(d);
    assert d[1..7] == "xample" && d[8..9] == "c" && d[9..] == "om";
  }

  /** No dot: `abc` becomes `AbAbc`. */
  lemma ExampleNoDot()
    ensures FormatDomainForStackName(Some("abc")) == "AbAbc"
  {
    NoDotRepeatsFirst("abc");
  }

  /** A leading dot only: `.com` becomes `.Com`. */
  lemma ExampleLeadingDot()
    ensures FormatDomainForStackName(Some(".com")) == ".Com"
  {
    var d := ".com";
    assert d[0] == '.' && d[1] != '.' && d[2] != '.' && d[3] != '.';
    LeadingDotKept(d);
    UpperOfOne('c');
    assert d[1..2] == "c" && d[2..] == "om";
  }

  /** A trailing dot: `site.` becomes `Site`. */
  lemma ExampleTrailingDot()
    ensures FormatDomainForStackName(Some("site.")) == "Site"
  {
    TrailingDot("site.");
  }
}

/**
 * Menu label sanitising.
 *
 * The GUI toolkit reads a single '&' in a menu caption as the marker of a
 * keyboard mnemonic and renders "&&" as one literal '&'. SanitiseLabel
 * replaces an empty label by a placeholder and then doubles every '&', so
 * that the caption the user sees is the label itself.
 */
module MenuLabels {

  /** The caption shown in place of an empty label. */
  const InvalidLabel: string := "-invalid label-"

  /** Number of '&' characters in s. */
  function AmpersandCount(s: string): nat
  {
    if s == [] then 0 else (if s[0] == '&' then 1 else 0) + AmpersandCount(s[1..])
  }

  /** The characters of s other than '&', in their order. */
  function WithoutAmpersands(s: string): string
  {
    if s == [] then [] else (if s[0] == '&' then [] else [s[0]]) + WithoutAmpersands(s[1..])
  }

  /** Python's s.replace('&', '&&'): every '&' is doubled. */
  function EscapeAmpersands(s: string): (r: string)
    ensures |r| == |s| + AmpersandCount(s)
  {
    if s == [] then []
    else (if s[0] == '&' then "&&" else [s[0]]) + EscapeAmpersands(s[1..])
  }

  /**
   * How the toolkit reads an escaped caption back: scanning left to right,
   * each "&&" stands for one literal '&'; every other character stands for
   * itself. This is also Python's s.replace('&&', '&').
   */
  function CollapseAmpersands(s: string): (r: string)
    ensures |r| <= |s|
  {
    if s == [] then []
    else if |s| >= 2 && s[0] == '&' && s[1] == '&' then "&" + CollapseAmpersands(s[2..])
    else [s[0]] + CollapseAmpersands(s[1..])
  }

  /** A caption in which every '&' is one half of an "&&" pair, so no mnemonic is set. */
  predicate WellEscaped(s: string)
  {
    if s == [] then true
    else if s[0] == '&' then |s| >= 2 && s[1] == '&' && WellEscaped(s[2..])
    else WellEscaped(s[1..])
  }

  /** SanitiseLabel (ClientGUIMenus.py): placeholder for the empty label, then '&' doubled. */
  function SanitiseLabel(text: string): (r: string)
    ensures text == [] ==> r == InvalidLabel
    ensures text != [] ==> |r| == |text| + AmpersandCount(text)
    ensures text != [] ==> CollapseAmpersands(r) == text
    ensures r != []
    ensures WellEscaped(r)
  {
    var l := if text == [] then InvalidLabel else text;
    EscapeIsWellEscaped(l);
    CollapseEscape(l);
    PlaceholderUnescaped();
    EscapeAmpersands(l)
  }

  /** The escape is a homomorphism: escaping a concatenation escapes each part. */
  lemma {:induction false} EscapeConcat(a: string, b: string)
    ensures EscapeAmpersands(a + b) == EscapeAmpersands(a) + EscapeAmpersands(b)
  {
    if a == [] {
      assert a + b == b;
    } else {
      assert (a + b)[0] == a[0];
      assert (a + b)[1..] == a[1..] + b;
      EscapeConcat(a[1..], b);
    }
  }

  /** Escaping exactly doubles the ampersands. */
  lemma {:induction false} EscapeDoublesAmpersands(s: string)
    ensures AmpersandCount(EscapeAmpersands(s)) == 2 * AmpersandCount(s)
  {
    if s != [] {
      EscapeDoublesAmpersands(s[1..]);
      var head := if s[0] == '&' then "&&" else [s[0]];
      CountConcat(head, EscapeAmpersands(s[1..]));
      if s[0] == '&' {
        assert head[1..] == "&";
        assert AmpersandCount(head) == 1 + AmpersandCount("&");
      }
    }
  }

  /** Escaping keeps every other character, in the same order. */
  lemma {:induction false} EscapeKeepsOtherCharacters(s: string)
    ensures WithoutAmpersands(EscapeAmpersands(s)) == WithoutAmpersands(s)
  {
    if s != [] {
      EscapeKeepsOtherCharacters(s[1..]);
      var head := if s[0] == '&' then "&&" else [s[0]];
      WithoutConcat(head, EscapeAmpersands(s[1..]));
      if s[0] == '&' {
        assert head[1..] == "&";
      }
    }
  }

  /** A string with no '&' is left as it is. */
  lemma {:induction false} NoAmpersandUnchanged(s: string)
    requires forall i :: 0 <= i < |s| ==> s[i] != '&'
    ensures EscapeAmpersands(s) == s
  {
    if s != [] {
      NoAmpersandUnchanged(s[1..]);
      assert [s[0]] + s[1..] == s;
    }
  }

  /** The placeholder holds no '&', so escaping leaves it as it is. */
  lemma PlaceholderUnescaped()
    ensures EscapeAmpersands(InvalidLabel) == InvalidLabel
  {
    assert forall i :: 0 <= i < |InvalidLabel| ==> InvalidLabel[i] != '&';
    NoAmpersandUnchanged(InvalidLabel);
  }

  /** Every escaped string is well escaped. */
  lemma {:induction false} EscapeIsWellEscaped(s: string)
    ensures WellEscaped(EscapeAmpersands(s))
  {
    if s != [] {
      EscapeIsWellEscaped(s[1..]);
      var rest := EscapeAmpersands(s[1..]);
      if s[0] == '&' {
        assert ("&&" + rest)[2..] == rest;
      } else {
        assert ([s[0]] + rest)[1..] == rest;
      }
    }
  }

  /** Round trip: reading an escaped string back gives the original string. */
  lemma {:induction false} CollapseEscape(s: string)
    ensures CollapseAmpersands(EscapeAmpersands(s)) == s
  {
    if s != [] {
      CollapseEscape(s[1..]);
      var rest := EscapeAmpersands(s[1..]);
      if s[0] == '&' {
        assert ("&&" + rest)[2..] == rest;
      } else {
        assert ([s[0]] + rest)[1..] == rest;
      }
      assert [s[0]] + s[1..] == s;
    }
  }

  /** The other direction: a well-escaped string is the escape of what it reads back as. */
  lemma {:induction false} EscapeCollapse(r: string)
    requires WellEscaped(r)
    ensures EscapeAmpersands(CollapseAmpersands(r)) == r
  {
    if r != [] {
      if r[0] == '&' {
        EscapeCollapse(r[2..]);
        assert "&" + CollapseAmpersands(r[2..]) == ['&'] + CollapseAmpersands(r[2..]);
        assert r == "&&" + r[2..];
      } else {
        EscapeCollapse(r[1..]);
        assert r == [r[0]] + r[1..];
      }
    }
  }

  /** Sanitising loses nothing: two non-empty labels with the same caption are equal. */
  lemma SanitiseLabelInjective(a: string, b: string)
    requires a != [] && b != []
    requires SanitiseLabel(a) == SanitiseLabel(b)
    ensures a == b
  {
  }

  /** The empty label cannot be told apart from the placeholder text itself. */
  lemma EmptyLabelLooksLikePlaceholder()
    ensures SanitiseLabel([]) == SanitiseLabel(InvalidLabel)
  {
  }

  lemma {:induction false} CountConcat(a: string, b: string)
    ensures AmpersandCount(a + b) == AmpersandCount(a) + AmpersandCount(b)
  {
    if a == [] {
      assert a + b == b;
    } else {
      assert (a + b)[0] == a[0];
      assert (a + b)[1..] == a[1..] + b;
      CountConcat(a[1..], b);
    }
  }

  lemma {:induction false} WithoutConcat(a: string, b: string)
    ensures WithoutAmpersands(a + b) == WithoutAmpersands(a) + WithoutAmpersands(b)
  {
    if a == [] {
      assert a + b == b;
    } else {
      assert (a + b)[0] == a[0];
      assert (a + b)[1..] == a[1..] + b;
      WithoutConcat(a[1..], b);
    }
  }
}

/** The two Python string operations the generators rely on: `template %
    args` with `%s` directives, and `str.strip()`. */
module PyStr {
  import opened Wrappers

  /** A `%`-template as written in the source, split at its directives:
      literal text, and `%s` conversions. The literal pieces hold no `%`. */
  datatype Piece = Literal(text: string) | Conversion

  /** The template's text as declared, with `%s` for each conversion. */
  function TemplateText(template: seq<Piece>): string {
    if template == [] then ""
    else (if template[0].Literal? then template[0].text else "%s") + TemplateText(template[1..])
  }

  function Conversions(template: seq<Piece>): nat {
    if template == [] then 0
    else (if template[0].Conversion? then 1 else 0) + Conversions(template[1..])
  }

  /** `template % tuple(args)`: the arguments replace the `%s` conversions in
      order, verbatim; too few or too many arguments raise TypeError. */
  function Format(template: seq<Piece>, args: seq<string>): (r: Result<string>)
    ensures r.Success? <==> |args| == Conversions(template)
    ensures r.Success? && args == [] ==> r.value == TemplateText(template)
  {
    if template == [] then
      if args == [] then Success("") else Failure(TypeError)
    else if template[0].Literal? then
      var rest :- Format(template[1..], args);
      Success(template[0].text + rest)
    else if args == [] then
      Failure(TypeError)
    else
      var rest :- Format(template[1..], args[1..]);
      Success(args[0] + rest)
  }

  /** One conversion between two literal pieces: the argument replaces it
      and the rest of the text is unchanged. */
  lemma FormatOne(head: string, arg: string, tail: string)
    ensures Format([Literal(head), Conversion, Literal(tail)], [arg]) == Success(head + arg + tail)
    ensures TemplateText([Literal(head), Conversion, Literal(tail)]) == head + "%s" + tail
  {
    var t := [Literal(head), Conversion, Literal(tail)];
    assert t[1..] == [Conversion, Literal(tail)] && t[1..][1..] == [Literal(tail)] && t[1..][1..][1..] == [];
    assert Format([Literal(tail)], []) == Success(tail + "");
    assert [arg][1..] == [];
    assert Format(t[1..], [arg]) == Success(arg + (tail + ""));
    assert head + (arg + (tail + "")) == head + arg + tail;
    assert head + ("%s" + (tail + "")) == head + "%s" + tail;
  }

  /** Two conversions, filled in order. */
  lemma FormatTwo(head: string, first: string, middle: string, second: string, tail: string)
    ensures Format([Literal(head), Conversion, Literal(middle), Conversion, Literal(tail)], [first, second]) ==
            Success(head + first + middle + second + tail)
    ensures TemplateText([Literal(head), Conversion, Literal(middle), Conversion, Literal(tail)]) ==
            head + "%s" + middle + "%s" + tail
  {
    var t := [Literal(head), Conversion, Literal(middle), Conversion, Literal(tail)];
    assert t[1..] == [Conversion, Literal(middle), Conversion, Literal(tail)];
    assert t[1..][1..] == [Literal(middle), Conversion, Literal(tail)];
    FormatOne(middle, second, tail);
    assert [first, second][1..] == [second];
    assert head + (first + (middle + second + tail)) == head + first + middle + second + tail;
    assert head + ("%s" + (middle + "%s" + tail)) == head + "%s" + middle + "%s" + tail;
  }

  lemma {:induction false} FirstOfConcat(a: string, b: string)
    requires a != []
    ensures (a + b)[0] == a[0]
  {
  }

  lemma {:induction false} LastOfConcat(a: string, b: string)
    requires b != []
    ensures (a + b)[|a + b| - 1] == b[|b| - 1]
  {
  }

  /** `str.isspace()` for one character: the ASCII separators and the
      Unicode white space characters. */
  predicate IsSpace(c: char) {
    || ('\U{9}' <= c <= '\U{d}') || ('\U{1c}' <= c <= ' ')
    || c == '\U{85}' || c == '\U{a0}' || c == '\U{1680}'
    || ('\U{2000}' <= c <= '\U{200a}')
    || c == '\U{2028}' || c == '\U{2029}' || c == '\U{202f}' || c == '\U{205f}' || c == '\U{3000}'
  }

  /** `s.lstrip()`: the longest white-space prefix removed. */
  function StripLeading(s: string): (r: string)
    ensures r == [] || !IsSpace(r[0])
    ensures |r| <= |s| && r == s[|s| - |r|..]
    ensures forall i :: 0 <= i < |s| - |r| ==> IsSpace(s[i])
  {
    if s != [] && IsSpace(s[0]) then StripLeading(s[1..]) else s
  }

  /** `s.rstrip()`: the longest white-space suffix removed. */
  function StripTrailing(s: string): (r: string)
    ensures r == [] || !IsSpace(r[|r| - 1])
    ensures |r| <= |s| && r == s[..|r|]
    ensures forall i :: |r| <= i < |s| ==> IsSpace(s[i])
  {
    if s != [] && IsSpace(s[|s| - 1]) then StripTrailing(s[..|s| - 1]) else s
  }

  /** `s.strip()`: white space removed at both ends. */
  function Strip(s: string): (r: string)
    ensures r == [] || (!IsSpace(r[0]) && !IsSpace(r[|r| - 1]))
    ensures |r| <= |s|
  {
    var left := StripLeading(s);
    var r := StripTrailing(left);
    assert r != [] ==> r[0] == left[0];
    r
  }

  /** Stripping leaves nothing exactly when the text is all white space. */
  lemma StripBlank(s: string)
    ensures Strip(s) == [] <==> forall i :: 0 <= i < |s| ==> IsSpace(s[i])
  {
    var left := StripLeading(s);
    if Strip(s) == [] {
      assert left == [];
    } else if forall i :: 0 <= i < |s| ==> IsSpace(s[i]) {
      if left != [] {
        assert left[0] == s[|s| - |left|];
      }
    }
  }

  /** Stripping removes exactly the surrounding white space: text that
      starts and ends with a visible character comes back unchanged from
      any white-space padding. */
  lemma {:induction false} StripPadded(left: string, text: string, right: string)
    requires forall i :: 0 <= i < |left| ==> IsSpace(left[i])
    requires forall i :: 0 <= i < |right| ==> IsSpace(right[i])
    requires text != [] && !IsSpace(text[0]) && !IsSpace(text[|text| - 1])
    ensures Strip(left + text + right) == text
  {
    StripLeadingPadded(left, text + right);
    assert left + text + right == left + (text + right);
    StripTrailingPadded(text, right);
  }

  lemma {:induction false} StripLeadingPadded(left: string, s: string)
    requires forall i :: 0 <= i < |left| ==> IsSpace(left[i])
    requires s != [] && !IsSpace(s[0])
    ensures StripLeading(left + s) == s
  {
    if left == [] {
      assert left + s == s;
    } else {
      assert (left + s)[1..] == left[1..] + s;
      StripLeadingPadded(left[1..], s);
    }
  }

  lemma {:induction false} StripTrailingPadded(s: string, right: string)
    requires forall i :: 0 <= i < |right| ==> IsSpace(right[i])
    requires s != [] && !IsSpace(s[|s| - 1])
    ensures StripTrailing(s + right) == s
  {
    if right == [] {
      assert s + right == s;
    } else {
      assert (s + right)[..|s + right| - 1] == s + right[..|right| - 1];
      StripTrailingPadded(s, right[..|right| - 1]);
    }
  }
}

/** `Format`: one pass over a brace format into a buffer whose size is computed beforehand.
    Arguments are given as the strings they convert to. */
module Format {
  import opened Collections

  // ----- formats and what they mean, token by token -----

  /** Braces come as `{}`, `{{` or `}}` only; formats are C strings, so they hold no NUL. */
  predicate WellFormed(format: string) {
    if format == [] then true
    else if format[0] == '{' then |format| >= 2 && (format[1] == '}' || format[1] == '{') && WellFormed(format[2..])
    else if format[0] == '}' then |format| >= 2 && format[1] == '}' && WellFormed(format[2..])
    else format[0] != '\0' && WellFormed(format[1..])
  }

  predicate Hole(format: string) { |format| >= 2 && format[0] == '{' && format[1] == '}' }

  predicate Brace(format: string) { format != [] && (format[0] == '{' || format[0] == '}') }

  function Holes(format: string): nat
    requires WellFormed(format)
  {
    if format == [] then 0
    else if Hole(format) then 1 + Holes(format[2..])
    else if Brace(format) then Holes(format[2..])
    else Holes(format[1..])
  }

  function Escapes(format: string): nat
    requires WellFormed(format)
  {
    if format == [] then 0
    else if Hole(format) then Escapes(format[2..])
    else if Brace(format) then 1 + Escapes(format[2..])
    else Escapes(format[1..])
  }

  function Meaning(format: string, args: seq<string>): string
    requires WellFormed(format) && Holes(format) == |args|
  {
    if format == [] then []
    else if Hole(format) then args[0] + Meaning(format[2..], args[1..])
    else if Brace(format) then [format[0]] + Meaning(format[2..], args)
    else [format[0]] + Meaning(format[1..], args)
  }

  function TotalSize(args: seq<string>): nat {
    if args == [] then 0 else |args[0]| + TotalSize(args[1..])
  }

  lemma {:induction false} TotalSizeSnoc(args: seq<string>, arg: string)
    ensures TotalSize(args + [arg]) == TotalSize(args) + |arg|
  {
    if args != [] {
      TotalSizeSnoc(args[1..], arg);
      assert (args + [arg])[1..] == args[1..] + [arg];
    }
  }

  lemma NoArguments()
    ensures TotalSize([]) == 0
  {
  }

  /** The precomputed size is exact but for the escapes, and never underflows. */
  lemma {:induction false} MeaningSize(format: string, args: seq<string>)
    requires WellFormed(format) && Holes(format) == |args|
    ensures |Meaning(format, args)| + Escapes(format) + 2 * |args| == |format| + TotalSize(args)
  {
    if format != [] {
      if Hole(format) {
        MeaningSize(format[2..], args[1..]);
      } else if Brace(format) {
        MeaningSize(format[2..], args);
      } else {
        MeaningSize(format[1..], args);
      }
    }
  }

  // ----- the formatter -----

  /** A read through the C string, whose terminator follows its characters. */
  function At(s: string, i: nat): char
    requires i <= |s|
  {
    if i < |s| then s[i] else '\0'
  }

  lemma DropMore<T>(s: seq<T>, i: nat)
    requires i <= |s|
    ensures i + 1 <= |s| ==> s[i..][1..] == s[i + 1..]
    ensures i + 2 <= |s| ==> s[i..][2..] == s[i + 2..]
  {
  }

  lemma NoNul(format: string)
    requires WellFormed(format) && (format == [] || format[0] == '\0')
    ensures format == [] && Holes(format) == 0 && Meaning(format, []) == []
  {
  }

  lemma HoleStep(before: string, format: string, args: seq<string>)
    requires WellFormed(format) && Holes(format) == |args| && Hole(format)
    ensures args != [] && WellFormed(format[2..]) && Holes(format[2..]) == |args[1..]|
    ensures (before + args[0]) + Meaning(format[2..], args[1..]) == before + Meaning(format, args)
    ensures |before + args[0]| <= |before + Meaning(format, args)|
  {
    assert WellFormed(format[2..]) && Holes(format[2..]) == |args[1..]|;
    Assoc(before, args[0], Meaning(format[2..], args[1..]));
  }

  lemma BraceStep(before: string, format: string, args: seq<string>)
    requires WellFormed(format) && Holes(format) == |args| && Brace(format) && !Hole(format)
    ensures |format| >= 2 && format[1] == format[0]
    ensures WellFormed(format[2..]) && Holes(format[2..]) == |args|
    ensures (before + [format[0]]) + Meaning(format[2..], args) == before + Meaning(format, args)
    ensures |before + [format[0]]| <= |before + Meaning(format, args)|
  {
    assert WellFormed(format[2..]) && Holes(format[2..]) == |args|;
    Assoc(before, [format[0]], Meaning(format[2..], args));
  }

  lemma CharStep(before: string, format: string, args: seq<string>)
    requires WellFormed(format) && Holes(format) == |args| && format != [] && !Brace(format)
    ensures WellFormed(format[1..]) && Holes(format[1..]) == |args|
    ensures (before + [format[0]]) + Meaning(format[1..], args) == before + Meaning(format, args)
    ensures |before + [format[0]]| <= |before + Meaning(format, args)|
  {
    assert WellFormed(format[1..]) && Holes(format[1..]) == |args|;
    Assoc(before, [format[0]], Meaning(format[1..], args));
  }

  method Put(buffer: array<char>, target: nat, c: char) returns (next: nat)
    requires target < buffer.Length
    modifies buffer
    ensures next == target + 1 && buffer[..next] == old(buffer[..target]) + [c]
  {
    buffer[target] := c;
    next := target + 1;
  }

  /** The copy of an argument, character by character. */
  method Copy(buffer: array<char>, target: nat, src: string) returns (next: nat)
    requires target + |src| <= buffer.Length
    modifies buffer
    ensures next == target + |src| && buffer[..next] == old(buffer[..target]) + src
  {
    for i := 0 to |src|
      invariant buffer[..target + i] == old(buffer[..target]) + src[..i]
    {
      buffer[target + i] := src[i];
      assert src[..i + 1] == src[..i] + [src[i]];
    }
    next := target + |src|;
  }

  method FormatAndReturnString(format: string, values: seq<string>) returns (output: string)
    requires WellFormed(format) && Holes(format) == |values|
    ensures output == Meaning(format, values)
    ensures |output| == |format| + TotalSize(values) - 2 * |values| - Escapes(format)
  {
    hide WellFormed, Holes, Escapes, Meaning, TotalSize;
    var newSize := |format|;
    assert values[..0] == [];
    NoArguments();
    for i := 0 to |values|
      invariant newSize == |format| + TotalSize(values[..i])
    {
      TotalSizeSnoc(values[..i], values[i]);
      assert values[..i + 1] == values[..i] + [values[i]];
      newSize := newSize + |values[i]|;
    }
    assert values[..|values|] == values;
    MeaningSize(format, values);
    assert newSize >= |values| * 2;
    newSize := newSize - |values| * 2;

    var buffer := new char[newSize];
    var argIdx, target, at := 0, 0, 0;
    assert format[0..] == format && values[0..] == values && buffer[..0] == [];
    while At(format, at) != '\0'
      invariant 0 <= at <= |format| && 0 <= argIdx <= |values| && 0 <= target <= buffer.Length
      invariant WellFormed(format[at..]) && Holes(format[at..]) == |values[argIdx..]|
      invariant buffer[..target] + Meaning(format[at..], values[argIdx..]) == Meaning(format, values)
      decreases |format| - at
    {
      ghost var rest, args, before := format[at..], values[argIdx..], buffer[..target];
      DropMore(format, at);
      DropMore(values, argIdx);
      var c := At(format, at);
      if c == '{' {
        if At(format, at + 1) == '}' {
          HoleStep(before, rest, args);
          target := Copy(buffer, target, values[argIdx]);
          argIdx := argIdx + 1;
        } else {
          BraceStep(before, rest, args);
          assert At(format, at + 1) == '{';
          target := Put(buffer, target, '{');
        }
        at := at + 1;
      } else if c == '}' {
        BraceStep(before, rest, args);
        assert At(format, at + 1) == '}';
        at := at + 1;
        target := Put(buffer, target, '}');
      } else {
        CharStep(before, rest, args);
        target := Put(buffer, target, c);
      }
      at := at + 1;
    }
    NoNul(format[at..]);
    assert argIdx == |values| && values[argIdx..] == [];
    output := buffer[..target];
  }

  // ----- templates -----

  function Escaped(c: char): string { if c == '{' || c == '}' then [c, c] else [c] }

  function Escape(text: string): string {
    if text == [] then []
    else Escaped(text[0]) + Escape(text[1..])
  }

  /** Texts, brace-escaped and joined by `{}`. */
  function Template(texts: seq<string>): string
    requires texts != []
  {
    Escape(texts[0]) + if |texts| == 1 then [] else "{}" + Template(texts[1..])
  }

  function Interleave(texts: seq<string>, args: seq<string>): string
    requires |texts| == |args| + 1
  {
    texts[0] + if args == [] then [] else args[0] + Interleave(texts[1..], args[1..])
  }

  /** A character in front of a format, escaped if it is a brace, comes out in front. */
  lemma EscapedChar(c: char, rest: string, args: seq<string>)
    requires c != '\0' && WellFormed(rest) && Holes(rest) == |args|
    ensures var format := Escaped(c) + rest;
            WellFormed(format) && Holes(format) == |args| && Meaning(format, args) == [c] + Meaning(rest, args)
  {
    var format := Escaped(c) + rest;
    assert format[|Escaped(c)|..] == rest;
  }

  lemma {:induction false} EscapedText(text: string, rest: string, args: seq<string>)
    requires '\0' !in text && WellFormed(rest) && Holes(rest) == |args|
    ensures WellFormed(Escape(text) + rest) && Holes(Escape(text) + rest) == |args|
    ensures Meaning(Escape(text) + rest, args) == text + Meaning(rest, args)
  {
    hide WellFormed, Holes, Meaning, Escaped;
    if text == [] {
      assert Escape(text) + rest == rest;
      assert text + Meaning(rest, args) == Meaning(rest, args);
    } else {
      assert text[0] in text && text == [text[0]] + text[1..];
      EscapedText(text[1..], rest, args);
      EscapedChar(text[0], Escape(text[1..]) + rest, args);
      Assoc(Escaped(text[0]), Escape(text[1..]), rest);
      Assoc([text[0]], text[1..], Meaning(rest, args));
    }
  }

  /** Formatting a template gives the texts back, braces and all, with the arguments in
      between. */
  lemma {:induction false} TemplateMeaning(texts: seq<string>, args: seq<string>)
    requires |texts| == |args| + 1 && forall i | 0 <= i < |texts| :: '\0' !in texts[i]
    ensures WellFormed(Template(texts)) && Holes(Template(texts)) == |args|
    ensures Meaning(Template(texts), args) == Interleave(texts, args)
  {
    if args == [] {
      EscapedText(texts[0], [], []);
    } else {
      TemplateMeaning(texts[1..], args[1..]);
      var rest := "{}" + Template(texts[1..]);
      assert rest[2..] == Template(texts[1..]);
      EscapedText(texts[0], rest, args);
    }
  }

  function AfterChar(format: string): string
    requires WellFormed(format) && format != []
  {
    if Brace(format) then format[2..] else format[1..]
  }

  /** The texts a format is a template of. */
  function Texts(format: string): (texts: seq<string>)
    requires WellFormed(format)
    ensures |texts| == Holes(format) + 1
  {
    if format == [] then [[]]
    else if Hole(format) then [[]] + Texts(format[2..])
    else
      var rest := Texts(AfterChar(format));
      [[format[0]] + rest[0]] + rest[1..]
  }

  lemma AtHole(format: string)
    requires WellFormed(format) && Hole(format)
    ensures WellFormed(format[2..]) && format == "{}" + format[2..]
    ensures Texts(format) == [[]] + Texts(format[2..])
  {
  }

  lemma AtChar(format: string)
    requires WellFormed(format) && format != [] && !Hole(format)
    ensures WellFormed(AfterChar(format)) && format[0] != '\0' && format == Escaped(format[0]) + AfterChar(format)
    ensures var rest := Texts(AfterChar(format)); Texts(format) == [[format[0]] + rest[0]] + rest[1..]
  {
  }

  lemma HoleTemplate(texts: seq<string>)
    requires texts != []
    ensures Template([[]] + texts) == "{}" + Template(texts)
  {
    assert ([[]] + texts)[1..] == texts;
    assert [] + ("{}" + Template(texts)) == "{}" + Template(texts);
  }

  lemma NoNulPrepended(c: char, texts: seq<string>)
    requires c != '\0' && texts != [] && forall i | 0 <= i < |texts| :: '\0' !in texts[i]
    ensures var prepended := [[c] + texts[0]] + texts[1..];
            forall i | 0 <= i < |prepended| :: '\0' !in prepended[i]
  {
  }

  lemma PrependText(c: char, texts: seq<string>)
    requires texts != []
    ensures Template([[c] + texts[0]] + texts[1..]) == Escaped(c) + Template(texts)
  {
    hide Escaped;
    var prepended := [[c] + texts[0]] + texts[1..];
    assert ([c] + texts[0])[1..] == texts[0];
    assert prepended[1..] == texts[1..];
    var tail := if |texts| == 1 then [] else "{}" + Template(texts[1..]);
    Assoc(Escaped(c), Escape(texts[0]), tail);
  }

  /** Every well-formed format is a template, so the two readings of a format agree. */
  lemma {:induction false} EveryFormatIsATemplate(format: string)
    requires WellFormed(format)
    ensures Template(Texts(format)) == format
    ensures forall i | 0 <= i < |Texts(format)| :: '\0' !in Texts(format)[i]
  {
    if format == [] {
      assert Template([[]]) == [];
    } else if Hole(format) {
      hide WellFormed, Template, Texts;
      AtHole(format);
      EveryFormatIsATemplate(format[2..]);
      HoleTemplate(Texts(format[2..]));
    } else {
      hide WellFormed, Template, Texts, Escaped;
      AtChar(format);
      EveryFormatIsATemplate(AfterChar(format));
      PrependText(format[0], Texts(AfterChar(format)));
      NoNulPrepended(format[0], Texts(AfterChar(format)));
    }
  }
}

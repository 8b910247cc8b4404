/** Finding one balanced JSON object in model text, and repairing its trailing commas. */
module JsonScan {
  import opened Prelude
  import opened Text

  // ---------------------------------------------------------------------
  // The string-aware scanning state
  // ---------------------------------------------------------------------

  datatype Mode = Outside | Inside | Escaped

  /** How one character moves the string state of either scanner. */
  function Next(mode: Mode, c: char): Mode {
    match mode
    case Outside => if c == '"' then Inside else Outside
    case Inside => if c == '\\' then Escaped else if c == '"' then Outside else Inside
    case Escaped => Inside
  }

  function ModeAfter(text: string, mode: Mode): Mode
    decreases |text|
  {
    if text == [] then mode else ModeAfter(text[1..], Next(mode, text[0]))
  }

  /** Brace depth change of one character. */
  function Nest(mode: Mode, c: char): int {
    if mode == Outside && c == '{' then 1 else if mode == Outside && c == '}' then -1 else 0
  }

  function DepthAfter(text: string, mode: Mode): int
    decreases |text|
  {
    if text == [] then 0 else Nest(mode, text[0]) + DepthAfter(text[1..], Next(mode, text[0]))
  }

  lemma {:induction false} ModeConcat(a: string, b: string, mode: Mode)
    ensures ModeAfter(a + b, mode) == ModeAfter(b, ModeAfter(a, mode))
    decreases |a|
  {
    if a == [] {
      assert a + b == b;
    } else {
      assert (a + b)[1..] == a[1..] + b;
      ModeConcat(a[1..], b, Next(mode, a[0]));
    }
  }

  lemma {:induction false} DepthConcat(a: string, b: string, mode: Mode)
    ensures DepthAfter(a + b, mode) == DepthAfter(a, mode) + DepthAfter(b, ModeAfter(a, mode))
    decreases |a|
  {
    if a == [] {
      assert a + b == b;
    } else {
      assert (a + b)[1..] == a[1..] + b;
      DepthConcat(a[1..], b, Next(mode, a[0]));
    }
  }

  /** The brace that brings the depth back to zero for the first time. */
  ghost predicate ClosesAt(text: string, k: nat) {
    && k < |text| && text[k] == '}' && ModeAfter(text[..k], Outside) == Outside
    && DepthAfter(text[..k + 1], Outside) == 0
    && forall j :: 0 <= j < k && text[j] == '}' && ModeAfter(text[..j], Outside) == Outside ==>
         DepthAfter(text[..j + 1], Outside) != 0
  }

  lemma PrefixStep(text: string, i: nat)
    requires i < |text|
    ensures ModeAfter(text[..i + 1], Outside) == Next(ModeAfter(text[..i], Outside), text[i])
    ensures DepthAfter(text[..i + 1], Outside) == DepthAfter(text[..i], Outside)
        + Nest(ModeAfter(text[..i], Outside), text[i])
  {
    assert text[..i + 1] == text[..i] + [text[i]];
    ModeConcat(text[..i], [text[i]], Outside);
    DepthConcat(text[..i], [text[i]], Outside);
    assert [text[i]][1..] == [];
  }

  /** The inner loop of the extraction: from an opening brace to its closer. */
  method ScanObject(text: string) returns (end: Option<nat>)
    ensures end.Some? <==> exists k :: ClosesAt(text, k)
    ensures end.Some? ==> ClosesAt(text, end.value)
  {
    var depth, inString, escape := 0, false, false;
    for i := 0 to |text|
      invariant depth == DepthAfter(text[..i], Outside)
      invariant ModeAfter(text[..i], Outside) == if !inString then Outside else if escape then Escaped else Inside
      invariant !inString ==> !escape
      invariant forall j :: 0 <= j < i && text[j] == '}' && ModeAfter(text[..j], Outside) == Outside ==>
        DepthAfter(text[..j + 1], Outside) != 0
    {
      var c := text[i];
      PrefixStep(text, i);
      if inString {
        if escape { escape := false; }
        else if c == '\\' { escape := true; }
        else if c == '"' { inString := false; }
      } else if c == '"' {
        inString := true;
      } else if c == '{' {
        depth := depth + 1;
      } else if c == '}' {
        depth := depth - 1;
        if depth == 0 {
          assert ClosesAt(text, i);
          return Some(i);
        }
      }
    }
    return None;
  }

  // ---------------------------------------------------------------------
  // Printed JSON
  // ---------------------------------------------------------------------

  /** JSON values with the white space a printer put in.  A number, true, false or null is
      an atom; a string is its escaped body.  A container may end in a stray comma,
      followed by white space. */
  datatype Json =
    | Atom(text: string)
    | Str(body: string)
    | Arr(space: string, items: Items, stray: Option<string>)
    | Obj(space: string, items: Items, stray: Option<string>)

  /** Elements with the white space around them; in an object each carries its name. */
  datatype Items =
    | End
    | More(before: string, tag: Option<Name>, value: Json, after: string, rest: Items)

  datatype Name = Name(body: string, gap: string, space: string)

  predicate Blank(s: string) { forall c :: c in s ==> IsSpace(c) }

  /** Characters an atom is made of. */
  predicate AtomChar(c: char) {
    !IsSpace(c) && c !in "\"\\{}[],:"
  }

  /** An escaped string body: every quote in it is escaped, and no escape is left open. */
  predicate Quotable(body: string, mode: Mode := Inside)
    decreases |body|
  {
    mode != Outside &&
    if body == [] then mode == Inside else Quotable(body[1..], Next(mode, body[0]))
  }

  /** One unit of an escaped string: a character that needs no escape, or a backslash and
      whatever it escapes. */
  datatype Unit = Bare(c: char) | Backslash(c: char)

  predicate Spellable(units: seq<Unit>) {
    forall i :: 0 <= i < |units| && units[i].Bare? ==> units[i].c != '"' && units[i].c != '\\'
  }

  function Spell(units: seq<Unit>): string {
    if units == [] then []
    else (match units[0] case Bare(c) => [c] case Backslash(c) => ['\\', c]) + Spell(units[1..])
  }

  /** Any sequence of units is an escaped body, escaped quotes and backslashes included. */
  lemma {:induction false} SpelledIsQuotable(units: seq<Unit>)
    requires Spellable(units)
    ensures Quotable(Spell(units))
  {
    if units != [] {
      var rest := Spell(units[1..]);
      SpelledIsQuotable(units[1..]);
      match units[0]
      case Bare(c) => assert Spell(units)[1..] == rest;
      case Backslash(c) =>
        assert Spell(units)[1..] == [c] + rest;
        assert ([c] + rest)[1..] == rest;
    }
  }

  /** And every escaped body is such a sequence. */
  lemma {:induction false} QuotableIsSpelled(body: string) returns (units: seq<Unit>)
    requires Quotable(body)
    ensures Spellable(units) && Spell(units) == body
    decreases |body|
  {
    if body == [] {
      units := [];
    } else if body[0] == '\\' {
      assert |body| > 1;
      var rest := QuotableIsSpelled(body[1..][1..]);
      units := [Backslash(body[1])] + rest;
      assert units[1..] == rest && body == [body[0], body[1]] + body[1..][1..];
    } else {
      var rest := QuotableIsSpelled(body[1..]);
      units := [Bare(body[0])] + rest;
      assert units[1..] == rest && body == [body[0]] + body[1..];
    }
  }

  predicate WellPrinted(v: Json) {
    match v
    case Atom(text) => text != [] && forall c :: c in text ==> AtomChar(c)
    case Str(body) => Quotable(body)
    case Arr(space, items, stray) => Blank(space) && Blank(Gap(stray)) && WellListed(items, false)
    case Obj(space, items, stray) => Blank(space) && Blank(Gap(stray)) && WellListed(items, true)
  }

  predicate WellListed(items: Items, named: bool) {
    match items
    case End => true
    case More(before, tag, value, after, rest) =>
      && Blank(before) && Blank(after) && WellPrinted(value) && WellListed(rest, named)
      && tag.Some? == named
      && (named ==> Quotable(tag.value.body) && Blank(tag.value.gap) && Blank(tag.value.space))
  }

  function Gap(stray: Option<string>): string { if stray.Some? then stray.value else "" }

  function Quoted(body: string): string { "\"" + (body + "\"") }

  function Lead(tag: Option<Name>): string {
    match tag
    case None => ""
    case Some(l) => Quoted(l.body) + (l.gap + (":" + l.space))
  }

  /** What stands between the last element and the closer; a strict print leaves the stray
      comma out. */
  function Tail(stray: Option<string>, strict: bool): string {
    (if stray.Some? && !strict then "," else "") + Gap(stray)
  }

  function Print(v: Json, strict: bool): string
    decreases v, 0
  {
    match v
    case Atom(text) => text
    case Str(body) => Quoted(body)
    case Arr(space, items, stray) => "[" + ((space + (PrintItems(items, strict) + Tail(stray, strict))) + "]")
    case Obj(space, items, stray) => "{" + ((space + (PrintItems(items, strict) + Tail(stray, strict))) + "}")
  }

  function PrintItems(items: Items, strict: bool): string
    decreases items, 0
  {
    match items
    case End => ""
    case More(before, tag, value, after, rest) =>
      before + (Lead(tag) + (Print(value, strict) + (after + PrintRest(rest, strict))))
  }

  function PrintRest(rest: Items, strict: bool): string
    decreases rest, 1
  {
    if rest.End? then "" else "," + PrintItems(rest, strict)
  }

  // ---------------------------------------------------------------------
  // The scan stops at the matching closer
  // ---------------------------------------------------------------------

  /** Starting at depth d, the depth never falls below zero. */
  predicate Up(text: string, mode: Mode, d: int)
    decreases |text|
  {
    d >= 0 && (text == [] || Up(text[1..], Next(mode, text[0]), d + Nest(mode, text[0])))
  }

  /** Text that leaves the scanner where it found it and never closes more than it opens. */
  ghost predicate Neutral(text: string) {
    ModeAfter(text, Outside) == Outside && DepthAfter(text, Outside) == 0 && Up(text, Outside, 0)
  }

  lemma {:induction false} UpConcat(a: string, b: string, mode: Mode, d: int)
    requires Up(a, mode, d) && Up(b, ModeAfter(a, mode), d + DepthAfter(a, mode))
    ensures Up(a + b, mode, d)
    decreases |a|
  {
    if a == [] {
      assert a + b == b;
    } else {
      assert (a + b)[1..] == a[1..] + b;
      UpConcat(a[1..], b, Next(mode, a[0]), d + Nest(mode, a[0]));
    }
  }

  lemma {:induction false} UpMore(a: string, mode: Mode, d: int, e: int)
    requires Up(a, mode, d) && d <= e
    ensures Up(a, mode, e)
    decreases |a|
  {
    if a != [] { UpMore(a[1..], Next(mode, a[0]), d + Nest(mode, a[0]), e + Nest(mode, a[0])); }
  }

  lemma {:induction false} UpPrefix(a: string, mode: Mode, d: int, k: nat)
    requires Up(a, mode, d) && k <= |a|
    ensures d + DepthAfter(a[..k], mode) >= 0
    decreases |a|
  {
    if k > 0 {
      assert a[..k][1..] == a[1..][..k - 1];
      UpPrefix(a[1..], Next(mode, a[0]), d + Nest(mode, a[0]), k - 1);
    }
  }

  lemma NeutralConcat(a: string, b: string)
    requires Neutral(a) && Neutral(b)
    ensures Neutral(a + b)
  {
    ModeConcat(a, b, Outside);
    DepthConcat(a, b, Outside);
    UpConcat(a, b, Outside, 0);
  }

  predicate Plain(text: string) { forall c :: c in text ==> c !in "\"{}" }

  lemma {:induction false} PlainNeutral(text: string)
    requires Plain(text)
    ensures Neutral(text)
    decreases |text|
  {
    if text != [] {
      assert text[0] in text;
      forall c | c in text[1..] ensures c !in "\"{}" { assert c in text; }
      PlainNeutral(text[1..]);
    }
  }

  lemma {:induction false} BodyScan(body: string, mode: Mode)
    requires Quotable(body, mode)
    ensures ModeAfter(body, mode) == Inside && DepthAfter(body, mode) == 0 && Up(body, mode, 0)
    decreases |body|
  {
    if body != [] { BodyScan(body[1..], Next(mode, body[0])); }
  }

  lemma QuotedNeutral(body: string)
    requires Quotable(body)
    ensures Neutral(Quoted(body))
  {
    BodyScan(body, Inside);
    var q := "\"";
    ModeConcat(body, q, Inside);
    DepthConcat(body, q, Inside);
    UpConcat(body, q, Inside, 0);
    assert q[1..] == [] && Quoted(body)[1..] == body + q;
  }

  /** Braces around neutral text are neutral. */
  lemma BracedNeutral(inner: string)
    requires Neutral(inner)
    ensures Neutral("{" + (inner + "}"))
    ensures Up(inner, Outside, 1)
  {
    var close := "}";
    UpMore(inner, Outside, 0, 1);
    ModeConcat(inner, close, Outside);
    DepthConcat(inner, close, Outside);
    UpConcat(inner, close, Outside, 1);
    assert close[1..] == [] && ("{" + (inner + close))[1..] == inner + close;
  }

  lemma BlankPlain(s: string)
    requires Blank(s)
    ensures Plain(s)
  {
  }

  lemma {:induction false} PrintNeutral(v: Json, strict: bool)
    requires WellPrinted(v)
    ensures Neutral(Print(v, strict))
    decreases v
  {
    hide Neutral, Blank, Plain, Quotable, Quoted;
    match v
    case Atom(text) =>
      AtomPlain(text);
      PlainNeutral(text);
    case Str(body) => QuotedNeutral(body);
    case Arr(space, items, stray) =>
      InsideNeutral(space, items, stray, strict, false);
      var inner := space + (PrintItems(items, strict) + Tail(stray, strict));
      BracketsPlain();
      PlainNeutral("[");
      PlainNeutral("]");
      NeutralConcat(inner, "]");
      NeutralConcat("[", inner + "]");
    case Obj(space, items, stray) =>
      InsideNeutral(space, items, stray, strict, true);
      BracedNeutral(space + (PrintItems(items, strict) + Tail(stray, strict)));
  }

  lemma AtomPlain(text: string)
    requires forall c :: c in text ==> AtomChar(c)
    ensures Plain(text)
  {
  }

  lemma BracketsPlain()
    ensures Plain("[") && Plain("]") && Plain(",") && Plain(":") && Plain("")
  {
  }

  /** Everything between the brackets of a container. */
  lemma {:induction false} InsideNeutral(space: string, items: Items, stray: Option<string>, strict: bool,
                                         named: bool)
    requires Blank(space) && Blank(Gap(stray)) && WellListed(items, named)
    ensures Neutral(space + (PrintItems(items, strict) + Tail(stray, strict)))
    decreases items, 1
  {
    hide Neutral, Blank, Plain, Quotable;
    BlankPlain(space);
    PlainNeutral(space);
    ItemsNeutral(items, strict, named);
    BlankPlain(Gap(stray));
    PlainNeutral(Gap(stray));
    BracketsPlain();
    PlainNeutral(",");
    PlainNeutral("");
    NeutralConcat(if stray.Some? && !strict then "," else "", Gap(stray));
    NeutralConcat(PrintItems(items, strict), Tail(stray, strict));
    NeutralConcat(space, PrintItems(items, strict) + Tail(stray, strict));
  }

  lemma {:induction false} ItemsNeutral(items: Items, strict: bool, named: bool)
    requires WellListed(items, named)
    ensures Neutral(PrintItems(items, strict))
    decreases items, 0
  {
    hide Neutral, Blank, Plain, Quotable, Lead;
    match items
    case End =>
      BracketsPlain();
      PlainNeutral("");
    case More(before, tag, value, after, rest) =>
      BlankPlain(before);
      PlainNeutral(before);
      LeadNeutral(tag);
      PrintNeutral(value, strict);
      BlankPlain(after);
      PlainNeutral(after);
      ItemsNeutral(rest, strict, named);
      BracketsPlain();
      PlainNeutral(",");
      PlainNeutral("");
      NeutralConcat(",", PrintItems(rest, strict));
      NeutralConcat(after, PrintRest(rest, strict));
      NeutralConcat(Print(value, strict), after + PrintRest(rest, strict));
      NeutralConcat(Lead(tag), Print(value, strict) + (after + PrintRest(rest, strict)));
      NeutralConcat(before, Lead(tag) + (Print(value, strict) + (after + PrintRest(rest, strict))));
  }

  lemma LeadNeutral(tag: Option<Name>)
    requires tag.Some? ==> Quotable(tag.value.body) && Blank(tag.value.gap) && Blank(tag.value.space)
    ensures Neutral(Lead(tag))
  {
    hide Neutral, Blank, Plain, Quotable, Quoted;
    BracketsPlain();
    PlainNeutral("");
    if tag.Some? {
      var l := tag.value;
      QuotedNeutral(l.body);
      BlankPlain(l.gap);
      PlainNeutral(l.gap);
      BlankPlain(l.space);
      PlainNeutral(l.space);
      PlainNeutral(":");
      NeutralConcat(":", l.space);
      NeutralConcat(l.gap, ":" + l.space);
      NeutralConcat(Quoted(l.body), l.gap + (":" + l.space));
    }
  }

  lemma ClosesOnce(text: string, j: nat, k: nat)
    requires ClosesAt(text, j) && ClosesAt(text, k)
    ensures j == k
  {
  }

  /** The scan started at the opening brace of a printed object stops exactly at its own
      closing brace, whatever follows and whatever its strings hold. */
  lemma ObjectClosesAtItsEnd(v: Json, strict: bool, rest: string)
    requires WellPrinted(v) && v.Obj?
    ensures var p := Print(v, strict);
      p != [] && p[0] == '{' && ClosesAt(p + rest, |p| - 1) && forall k :: ClosesAt(p + rest, k) ==> k == |p| - 1
  {
    hide WellPrinted, PrintItems, Tail;
    var inner := v.space + (PrintItems(v.items, strict) + Tail(v.stray, strict));
    assert Blank(v.space) && Blank(Gap(v.stray)) && WellListed(v.items, true) by { ObjectParts(v); }
    InsideNeutral(v.space, v.items, v.stray, strict, true);
    BracedCloses(inner, rest);
    var p := Print(v, strict);
    assert p == "{" + (inner + "}");
    forall k | ClosesAt(p + rest, k) ensures k == |p| - 1 { ClosesOnce(p + rest, k, |p| - 1); }
  }

  lemma ObjectParts(v: Json)
    requires WellPrinted(v) && v.Obj?
    ensures Blank(v.space) && Blank(Gap(v.stray)) && WellListed(v.items, true)
  {
  }

  lemma BracedCloses(inner: string, rest: string)
    requires Neutral(inner)
    ensures ClosesAt("{" + (inner + "}") + rest, |inner| + 1)
  {
    var text := "{" + (inner + "}") + rest;
    var end := |inner| + 1;
    BracedNeutral(inner);
    assert text[..end] == "{" + inner;
    assert text[..end + 1] == "{" + (inner + "}");
    assert ("{" + inner)[1..] == inner;
    forall j | 0 <= j < end && text[j] == '}' && ModeAfter(text[..j], Outside) == Outside
      ensures DepthAfter(text[..j + 1], Outside) != 0
    {
      assert j > 0;
      assert text[..j + 1] == "{" + inner[..j];
      assert ("{" + inner[..j])[1..] == inner[..j];
      UpPrefix(inner, Outside, 0, j);
    }
  }

  // ---------------------------------------------------------------------
  // Repairing trailing commas
  // ---------------------------------------------------------------------

  predicate IsCloser(c: char) { c == '}' || c == ']' }

  /** Whether the first character that is not white space closes a container; follow says
      so for the text after. */
  function CloserIn(text: string, follow: bool): bool {
    if text == [] then follow
    else if IsSpace(text[0]) then CloserIn(text[1..], follow)
    else IsCloser(text[0])
  }

  /** The text without the commas outside strings that a closer follows. */
  function Repair(text: string, mode: Mode, follow: bool): string
    decreases |text|
  {
    if text == [] then []
    else
      (if mode == Outside && text[0] == ',' && CloserIn(text[1..], follow) then [] else [text[0]])
      + Repair(text[1..], Next(mode, text[0]), follow)
  }

  lemma {:induction false} SkipSpace(text: string, k: nat, follow: bool)
    requires k <= |text| && Blank(text[..k])
    ensures CloserIn(text, follow) == CloserIn(text[k..], follow)
    decreases k
  {
    if k > 0 {
      assert text[..k][0] in text[..k];
      forall c | c in text[1..][..k - 1] ensures IsSpace(c) {
        assert text[..k][1..] == text[1..][..k - 1];
        assert c in text[..k];
      }
      SkipSpace(text[1..], k - 1, follow);
      assert text[1..][k - 1..] == text[k..];
    }
  }

  function ModeOf(inString: bool, escape: bool): Mode {
    if !inString then Outside else if escape then Escaped else Inside
  }

  lemma RepairStep(text: string, i: nat, mode: Mode)
    requires i < |text|
    ensures Repair(text[i..], mode, false)
      == (if mode == Outside && text[i] == ',' && CloserIn(text[i + 1..], false) then [] else [text[i]])
         + Repair(text[i + 1..], Next(mode, text[i]), false)
  {
    assert text[i..][1..] == text[i + 1..];
  }

  lemma CloserStep(text: string, i: nat)
    requires i <= |text|
    ensures CloserIn(text[i..], false)
      == if i == |text| then false else if IsSpace(text[i]) then CloserIn(text[i + 1..], false) else IsCloser(text[i])
  {
    if i < |text| { assert text[i..][1..] == text[i + 1..]; }
  }

  method WithoutTrailingCommas(candidate: string) returns (out: string)
    ensures out == Repair(candidate, Outside, false)
  {
    hide Repair, CloserIn, IsSpace;
    var chars := "";
    var inString, escape := false, false;
    ghost var mode := Outside;
    assert candidate[0..] == candidate;
    for index := 0 to |candidate|
      invariant !inString ==> !escape
      invariant mode == ModeOf(inString, escape)
      invariant chars + Repair(candidate[index..], mode, false) == Repair(candidate, Outside, false)
    {
      var c := candidate[index];
      RepairStep(candidate, index, mode);
      mode := Next(mode, c);
      if inString {
        chars := chars + [c];
        if escape { escape := false; }
        else if c == '\\' { escape := true; }
        else if c == '"' { inString := false; }
        continue;
      }
      if c == '"' {
        inString := true;
        chars := chars + [c];
        continue;
      }
      if c == ',' {
        var lookahead := Lookahead(candidate, index + 1);
        if lookahead < |candidate| && IsCloser(candidate[lookahead]) {
          continue;
        }
      }
      chars := chars + [c];
    }
    EmptyRepair(mode);
    assert candidate[|candidate|..] == [];
    return chars;
  }

  lemma EmptyRepair(mode: Mode)
    ensures Repair([], mode, false) == []
  {
  }

  /** The inner loop: past the white space behind a comma. */
  method Lookahead(candidate: string, from: nat) returns (lookahead: nat)
    requires from <= |candidate|
    ensures from <= lookahead <= |candidate|
    ensures CloserIn(candidate[from..], false) <==> lookahead < |candidate| && IsCloser(candidate[lookahead])
  {
    hide CloserIn, IsSpace;
    lookahead := from;
    while lookahead < |candidate| && IsSpace(candidate[lookahead])
      invariant from <= lookahead <= |candidate|
      invariant CloserIn(candidate[from..], false) == CloserIn(candidate[lookahead..], false)
    {
      CloserStep(candidate, lookahead);
      lookahead := lookahead + 1;
    }
    CloserStep(candidate, lookahead);
  }

  /** What the scanner reads inside strings, closing quotes included. */
  function InStrings(text: string, mode: Mode): string
    decreases |text|
  {
    if text == [] then []
    else (if mode == Outside then [] else [text[0]]) + InStrings(text[1..], Next(mode, text[0]))
  }

  /** What is left of a text outside strings when its commas go. */
  function WithoutCommas(text: string, mode: Mode): string
    decreases |text|
  {
    if text == [] then []
    else
      (if mode == Outside && text[0] == ',' then [] else [text[0]]) + WithoutCommas(text[1..], Next(mode, text[0]))
  }

  /** For every text, repair never touches a character inside a string and drops nothing but
      commas; its output leaves the scanner in the same state. */
  lemma {:induction false} RepairOnlyDropsCommas(text: string, mode: Mode, follow: bool)
    ensures var fixed := Repair(text, mode, follow);
      && InStrings(fixed, mode) == InStrings(text, mode)
      && WithoutCommas(fixed, mode) == WithoutCommas(text, mode)
      && ModeAfter(fixed, mode) == ModeAfter(text, mode)
    decreases |text|
  {
    if text != [] {
      var next := Next(mode, text[0]);
      RepairOnlyDropsCommas(text[1..], next, follow);
      var rest := Repair(text[1..], next, follow);
      var fixed := Repair(text, mode, follow);
      if mode == Outside && text[0] == ',' && CloserIn(text[1..], follow) {
        assert fixed == rest;
      } else {
        assert fixed == [text[0]] + rest;
        assert fixed[1..] == rest;
      }
    }
  }

  /** The first character that is not white space is a comma that repair drops. */
  function DropsNext(text: string, follow: bool): bool {
    if text == [] then false
    else if IsSpace(text[0]) then DropsNext(text[1..], follow)
    else text[0] == ',' && CloserIn(text[1..], follow)
  }

  /** Some comma outside strings stands right before one that repair drops, but for white
      space. */
  function Stacked(text: string, mode: Mode, follow: bool): bool
    decreases |text|
  {
    text != []
    && ((mode == Outside && text[0] == ',' && DropsNext(text[1..], follow))
        || Stacked(text[1..], Next(mode, text[0]), follow))
  }

  lemma {:induction false} RepairShrinks(text: string, mode: Mode, follow: bool)
    ensures |Repair(text, mode, follow)| <= |text|
    decreases |text|
  {
    if text != [] { RepairShrinks(text[1..], Next(mode, text[0]), follow); }
  }

  /** After repair a closer comes next if it did before, or if the comma next was dropped. */
  lemma {:induction false} CloserAfterRepair(text: string, follow: bool)
    ensures CloserIn(Repair(text, Outside, follow), follow) <==> CloserIn(text, follow) || DropsNext(text, follow)
  {
    if text != [] {
      var c, rest := text[0], text[1..];
      var fixed := Repair(text, Outside, follow);
      if IsSpace(c) {
        CloserAfterRepair(rest, follow);
        assert c != ',' && c != '"';
        assert fixed[1..] == Repair(rest, Outside, follow);
      } else if c == ',' && CloserIn(rest, follow) {
        CloserAfterRepair(rest, follow);
        assert fixed == Repair(rest, Outside, follow);
      } else {
        assert fixed[0] == c;
      }
    }
  }

  lemma {:induction false} DropsNothingBeforeCloser(text: string, follow: bool)
    requires CloserIn(text, follow)
    ensures !DropsNext(text, follow)
  {
    if text != [] && IsSpace(text[0]) { DropsNothingBeforeCloser(text[1..], follow); }
  }

  /** Repairing twice is repairing once exactly on texts without stacked commas. */
  lemma {:induction false} RepairIdempotentIff(text: string, mode: Mode, follow: bool)
    ensures var once := Repair(text, mode, follow);
      Repair(once, mode, follow) == once <==> !Stacked(text, mode, follow)
    decreases |text|
  {
    if text != [] {
      var c, rest := text[0], text[1..];
      var next := Next(mode, c);
      var once, tail := Repair(text, mode, follow), Repair(rest, next, follow);
      RepairIdempotentIff(rest, next, follow);
      if mode == Outside && c == ',' {
        CloserAfterRepair(rest, follow);
        if CloserIn(rest, follow) {
          DropsNothingBeforeCloser(rest, follow);
          assert once == tail;
        } else {
          assert once[1..] == tail;
          RepairShrinks(tail, next, follow);
        }
      } else {
        assert once[1..] == tail;
      }
    }
  }

  /** Of two stray commas only the last is dropped. */
  lemma RepairDropsOneCommaAtATime()
    ensures Repair(",,}", Outside, false) == ",}" && Repair(",}", Outside, false) == "}"
  {
    var text := ",,}";
    assert text[1..] == ",}" && text[1..][1..] == "}" && text[1..][1..][1..] == "";
  }

  lemma {:induction false} CloserConcat(a: string, b: string, follow: bool)
    ensures CloserIn(a + b, follow) == CloserIn(a, CloserIn(b, follow))
  {
    if a == [] {
      assert a + b == b;
    } else {
      assert (a + b)[1..] == a[1..] + b;
      CloserConcat(a[1..], b, follow);
    }
  }

  lemma {:induction false} RepairConcat(a: string, b: string, mode: Mode, follow: bool)
    ensures Repair(a + b, mode, follow) == Repair(a, mode, CloserIn(b, follow)) + Repair(b, ModeAfter(a, mode), follow)
    decreases |a|
  {
    if a == [] {
      assert a + b == b;
    } else {
      assert (a + b)[1..] == a[1..] + b;
      CloserConcat(a[1..], b, follow);
      RepairConcat(a[1..], b, Next(mode, a[0]), follow);
    }
  }

  /** Repair turns a into b wherever a stands outside strings. */
  ghost predicate Mends(a: string, b: string) {
    ModeAfter(a, Outside) == Outside && Repair(a, Outside, false) == b && Repair(a, Outside, true) == b
  }

  lemma MendsConcat(a: string, a': string, b: string, b': string)
    requires Mends(a, a') && Mends(b, b')
    ensures Mends(a + b, a' + b')
  {
    ModeConcat(a, b, Outside);
    RepairConcat(a, b, Outside, false);
    RepairConcat(a, b, Outside, true);
  }

  predicate Even(text: string) { forall c :: c in text ==> c != '"' && c != ',' }

  lemma {:induction false} EvenMends(text: string)
    requires Even(text)
    ensures Mends(text, text)
    decreases |text|
  {
    if text != [] {
      assert text[0] in text;
      forall c | c in text[1..] ensures c != '"' && c != ',' { assert c in text; }
      EvenMends(text[1..]);
    }
  }

  lemma BlankEven(s: string)
    requires Blank(s)
    ensures Even(s)
  {
  }

  lemma AtomEven(text: string)
    requires forall c :: c in text ==> AtomChar(c)
    ensures Even(text)
  {
  }

  lemma MarksEven()
    ensures Even("") && Even("[") && Even("{") && Even("]") && Even("}") && Even(":")
  {
  }

  lemma {:induction false} BodyKept(body: string, mode: Mode, follow: bool)
    requires Quotable(body, mode)
    ensures Repair(body, mode, follow) == body && ModeAfter(body, mode) == Inside
    decreases |body|
  {
    if body != [] { BodyKept(body[1..], Next(mode, body[0]), follow); }
  }

  lemma QuotedMends(body: string)
    requires Quotable(body)
    ensures Mends(Quoted(body), Quoted(body))
  {
    var q := "\"";
    forall follow: bool
      ensures Repair(Quoted(body), Outside, follow) == Quoted(body) && ModeAfter(Quoted(body), Outside) == Outside
    {
      BodyKept(body, Inside, CloserIn(q, follow));
      ModeConcat(body, q, Inside);
      RepairConcat(body, q, Inside, follow);
      assert q[1..] == [] && Quoted(body)[1..] == body + q;
    }
  }

  lemma LeadMends(tag: Option<Name>)
    requires tag.Some? ==> Quotable(tag.value.body) && Blank(tag.value.gap) && Blank(tag.value.space)
    ensures Mends(Lead(tag), Lead(tag))
  {
    hide Mends, Blank, Even, Quotable, Quoted;
    MarksEven();
    EvenMends("");
    if tag.Some? {
      var l := tag.value;
      QuotedMends(l.body);
      BlankEven(l.gap);
      EvenMends(l.gap);
      BlankEven(l.space);
      EvenMends(l.space);
      EvenMends(":");
      MendsConcat(":", ":", l.space, l.space);
      MendsConcat(l.gap, l.gap, ":" + l.space, ":" + l.space);
      MendsConcat(Quoted(l.body), Quoted(l.body), l.gap + (":" + l.space), l.gap + (":" + l.space));
    }
  }

  lemma CommaDropped(gap: string, close: string)
    requires Blank(gap) && (close == "}" || close == "]") && Mends(gap + close, gap + close)
    ensures Mends("," + (gap + close), gap + close)
  {
    hide Blank, IsSpace;
    var b := gap + close;
    assert b[..|gap|] == gap && b[|gap|..] == close;
    SkipSpace(b, |gap|, false);
    SkipSpace(b, |gap|, true);
    CloserFirst(close);
    assert ("," + b)[1..] == b;
  }

  lemma CloserFirst(close: string)
    requires close == "}" || close == "]"
    ensures CloserIn(close, false) && CloserIn(close, true)
  {
  }

  /** A stray comma before a closer goes; the white space after it stays. */
  lemma StrayDropped(stray: Option<string>, strict: bool, close: string)
    requires Blank(Gap(stray)) && (close == "}" || close == "]")
    ensures Mends(Tail(stray, strict) + close, Tail(stray, true) + close)
  {
    hide Mends, Blank, Even;
    var gap := Gap(stray);
    MarksEven();
    BlankEven(gap);
    EvenMends(gap);
    EvenMends(close);
    MendsConcat(gap, gap, close, close);
    assert Tail(stray, true) == gap;
    if stray.Some? && !strict {
      CommaDropped(gap, close);
      assert Tail(stray, strict) + close == "," + (gap + close);
    } else {
      assert Tail(stray, strict) == gap;
    }
  }

  /** Text whose first character that is not white space opens a value. */
  ghost predicate Opens(text: string) { !CloserIn(text, true) }

  lemma OpensAfter(before: string, text: string)
    requires Blank(before) && text != [] && !IsSpace(text[0]) && !IsCloser(text[0])
    ensures Opens(before + text)
  {
    assert (before + text)[..|before|] == before && (before + text)[|before|..] == text;
    SkipSpace(before + text, |before|, true);
  }

  lemma CommaKept(b: string, b': string)
    requires Mends(b, b') && Opens(b)
    ensures Mends("," + b, "," + b')
  {
    CloserConcat(b, "", true);
    assert ("," + b)[1..] == b;
    NotCloserEither(b);
  }

  lemma {:induction false} NotCloserEither(b: string)
    requires !CloserIn(b, true)
    ensures !CloserIn(b, false)
  {
    if b != [] && IsSpace(b[0]) { NotCloserEither(b[1..]); }
  }

  lemma ValueStarts(v: Json, strict: bool)
    requires WellPrinted(v)
    ensures var p := Print(v, strict); p != [] && !IsSpace(p[0]) && !IsCloser(p[0])
  {
    if v.Atom? { assert v.text[0] in v.text; }
  }

  lemma ItemsOpen(items: Items, strict: bool, named: bool)
    requires WellListed(items, named) && items.More?
    ensures Opens(PrintItems(items, strict))
  {
    var value := Print(items.value, strict) + (items.after + PrintRest(items.rest, strict));
    ValueStarts(items.value, strict);
    OpensAfter(items.before, Lead(items.tag) + value);
  }

  /** Repair turns the loose print of any value into its strict print and leaves a strict
      print as it is. */
  lemma {:induction false} PrintMends(v: Json, strict: bool)
    requires WellPrinted(v)
    ensures Mends(Print(v, strict), Print(v, true))
    decreases v, 0
  {
    hide Mends, Blank, Even, Quotable, Quoted;
    match v
    case Atom(text) =>
      AtomEven(text);
      EvenMends(text);
    case Str(body) => QuotedMends(body);
    case Arr(space, items, stray) => BracketsMend("[", space, items, stray, "]", strict, false);
    case Obj(space, items, stray) => BracketsMend("{", space, items, stray, "}", strict, true);
  }

  lemma Reassociate(a: string, b: string, c: string, d: string)
    ensures (a + (b + c)) + d == a + (b + (c + d))
  {
  }

  lemma {:induction false} BracketsMend(open: string, space: string, items: Items, stray: Option<string>,
                                        close: string, strict: bool, named: bool)
    requires Blank(space) && Blank(Gap(stray)) && WellListed(items, named)
    requires (open == "[" && close == "]") || (open == "{" && close == "}")
    ensures Mends(open + ((space + (PrintItems(items, strict) + Tail(stray, strict))) + close),
                  open + ((space + (PrintItems(items, true) + Tail(stray, true))) + close))
    decreases items, 1
  {
    hide Mends, Blank, Even, Tail, Gap;
    MarksEven();
    EvenMends(open);
    BlankEven(space);
    EvenMends(space);
    ItemsMend(items, strict, named);
    StrayDropped(stray, strict, close);
    MendsConcat(PrintItems(items, strict), PrintItems(items, true), Tail(stray, strict) + close,
      Tail(stray, true) + close);
    MendsConcat(space, space, PrintItems(items, strict) + (Tail(stray, strict) + close),
      PrintItems(items, true) + (Tail(stray, true) + close));
    Reassociate(space, PrintItems(items, strict), Tail(stray, strict), close);
    Reassociate(space, PrintItems(items, true), Tail(stray, true), close);
    MendsConcat(open, open, (space + (PrintItems(items, strict) + Tail(stray, strict))) + close,
                (space + (PrintItems(items, true) + Tail(stray, true))) + close);
  }

  lemma {:induction false} ItemsMend(items: Items, strict: bool, named: bool)
    requires WellListed(items, named)
    ensures Mends(PrintItems(items, strict), PrintItems(items, true))
    decreases items, 0
  {
    hide Mends, Blank, Even, Quotable, Lead, Opens;
    MarksEven();
    EvenMends("");
    match items
    case End =>
    case More(before, tag, value, after, rest) =>
      BlankEven(before);
      EvenMends(before);
      LeadMends(tag);
      PrintMends(value, strict);
      BlankEven(after);
      EvenMends(after);
      ItemsMend(rest, strict, named);
      if rest.More? {
        ItemsOpen(rest, strict, named);
        CommaKept(PrintItems(rest, strict), PrintItems(rest, true));
      }
      var r, r' := PrintRest(rest, strict), PrintRest(rest, true);
      MendsConcat(after, after, r, r');
      MendsConcat(Print(value, strict), Print(value, true), after + r, after + r');
      MendsConcat(Lead(tag), Lead(tag), Print(value, strict) + (after + r), Print(value, true) + (after + r'));
      MendsConcat(before, before, Lead(tag) + (Print(value, strict) + (after + r)),
        Lead(tag) + (Print(value, true) + (after + r')));
  }

  /** Comma repair of any printed value, whatever stray commas it holds. */
  lemma RepairIsStrictPrint(v: Json, strict: bool)
    requires WellPrinted(v)
    ensures Repair(Print(v, strict), Outside, false) == Print(v, true)
  {
    hide Print, WellPrinted, Repair;
    PrintMends(v, strict);
  }

  // ---------------------------------------------------------------------
  // The extraction loop over one search space
  // ---------------------------------------------------------------------

  /** What the JSON parser yields. */
  datatype Parsed = Other | Dict(members: map<string, string>)

  type Parser = string -> Option<Parsed>

  predicate IsCore(value: Option<Parsed>) {
    && value.Some? && value.value.Dict?
    && ("verdict" in value.value.members || "claims" in value.value.members || "scenarios" in value.value.members)
  }

  /** The candidate as it stands, or else its repair. */
  function ParseEither(loads: Parser, candidate: string): Option<Parsed> {
    if loads(candidate).Some? then loads(candidate) else loads(Repair(candidate, Outside, false))
  }

  ghost function AttemptAt(space: string, start: nat, loads: Parser): (r: Option<Parsed>)
    requires start <= |space|
    ensures forall k :: ClosesAt(space[start..], k) ==> r == ParseEither(loads, space[start..][..k + 1])
  {
    if k :| ClosesAt(space[start..], k) then
      (forall j ensures ClosesAt(space[start..], j) ==> j == k {
         if ClosesAt(space[start..], j) { ClosesOnce(space[start..], j, k); }
       }
       ParseEither(loads, space[start..][..k + 1]))
    else None
  }

  /** Python's `held or next` for a dictionary that may be missing. */
  function OrElse(held: Option<Parsed>, next: Option<Parsed>): Option<Parsed> {
    if held.Some? && held.value.Dict? && held.value.members != map[] then held else next
  }

  /** The fallback once the starts before end gave no answer. */
  ghost function FallbackBefore(space: string, end: nat, loads: Parser, held: Option<Parsed>): Option<Parsed>
    requires end <= |space|
    decreases end
  {
    if end == 0 then held
    else
      var before := FallbackBefore(space, end - 1, loads, held);
      var attempt := AttemptAt(space, end - 1, loads);
      if space[end - 1] == '{' && attempt.Some? && attempt.value.Dict? then OrElse(before, attempt) else before
  }

  /** The first opening brace whose balanced text parses to an answer. */
  ghost predicate AnswersAt(space: string, start: nat, loads: Parser) {
    && start < |space| && space[start] == '{' && IsCore(AttemptAt(space, start, loads))
    && forall s :: 0 <= s < start && space[s] == '{' ==> !IsCore(AttemptAt(space, s, loads))
  }

  method ExtractFrom(space: string, loads: Parser, held: Option<Parsed>)
    returns (answer: Option<Parsed>, fallback: Option<Parsed>)
    ensures answer.Some? ==> exists start :: AnswersAt(space, start, loads) && answer == AttemptAt(space, start, loads)
    ensures answer.None? ==> forall s :: 0 <= s < |space| && space[s] == '{' ==> !IsCore(AttemptAt(space, s, loads))
    ensures answer.None? ==> fallback == FallbackBefore(space, |space|, loads, held)
  {
    hide ClosesAt, Repair;
    fallback := held;
    for start := 0 to |space|
      invariant fallback == FallbackBefore(space, start, loads, held)
      invariant forall s :: 0 <= s < start && space[s] == '{' ==> !IsCore(AttemptAt(space, s, loads))
    {
      if space[start] == '{' {
        var end := ScanObject(space[start..]);
        if end.Some? {
          var candidate := space[start..][..end.value + 1];
          var parsed := loads(candidate);
          if parsed.None? {
            var repaired := WithoutTrailingCommas(candidate);
            parsed := loads(repaired);
          }
          assert parsed == AttemptAt(space, start, loads);
          if parsed.Some? && parsed.value.Dict? {
            if IsCore(parsed) {
              return parsed, fallback;
            }
            fallback := OrElse(fallback, parsed);
          }
        }
      }
    }
    return None, fallback;
  }

  /** An object printed with stray commas after any chatter that holds no answer of its own
      is found and parsed as its strict print, whatever follows it. */
  lemma PrintedObjectIsExtracted(pre: string, v: Json, strict: bool, post: string, loads: Parser)
    requires WellPrinted(v) && v.Obj?
    requires IsCore(loads(Print(v, true)))
    requires loads(Print(v, strict)).None? || loads(Print(v, strict)) == loads(Print(v, true))
    requires forall s :: 0 <= s < |pre| && pre[s] == '{' ==> !IsCore(AttemptAt(pre + Print(v, strict) + post, s, loads))
    ensures var space := pre + Print(v, strict) + post;
      AnswersAt(space, |pre|, loads) && AttemptAt(space, |pre|, loads) == loads(Print(v, true))
  {
    hide WellPrinted, Print, Repair, ClosesAt, Quotable;
    var p := Print(v, strict);
    var space := pre + p + post;
    ObjectClosesAtItsEnd(v, strict, post);
    RepairIsStrictPrint(v, strict);
    assert space[|pre|..] == p + post;
    assert (p + post)[..|p|] == p;
    assert AttemptAt(space, |pre|, loads) == ParseEither(loads, p);
    assert space[|pre|] == p[0];
    forall s | 0 <= s < |pre| && space[s] == '{' ensures !IsCore(AttemptAt(space, s, loads)) {
      assert pre[s] == '{';
    }
  }

  /** The dictionary an opening brace yields, if it yields one. */
  ghost predicate Yields(space: string, start: nat, loads: Parser, value: Option<Parsed>) {
    && start < |space| && space[start] == '{' && AttemptAt(space, start, loads) == value
    && value.Some? && value.value.Dict?
  }

  predicate Filled(value: Option<Parsed>) { value.Some? && value.value.Dict? && value.value.members != map[] }

  /** Without an answer the fallback is what was held, if that is filled; or else the first
      filled dictionary of the text; or else its last empty one. */
  lemma {:induction false} FallbackMeans(space: string, end: nat, loads: Parser, held: Option<Parsed>)
    requires end <= |space|
    ensures var f := FallbackBefore(space, end, loads, held);
      && (Filled(held) ==> f == held)
      && (!Filled(held) ==> IsFallback(space, end, loads, held, f))
    decreases end
  {
    hide AttemptAt;
    if end > 0 {
      FallbackMeans(space, end - 1, loads, held);
      if !Filled(held) { FallbackStep(space, end, loads, held); }
    }
  }

  lemma FallbackStep(space: string, end: nat, loads: Parser, held: Option<Parsed>)
    requires 0 < end <= |space| && !Filled(held)
    requires IsFallback(space, end - 1, loads, held, FallbackBefore(space, end - 1, loads, held))
    ensures IsFallback(space, end, loads, held, FallbackBefore(space, end, loads, held))
  {
    hide AttemptAt;
    var before, f := FallbackBefore(space, end - 1, loads, held), FallbackBefore(space, end, loads, held);
    var attempt := AttemptAt(space, end - 1, loads);
    if Yields(space, end - 1, loads, attempt) {
      if Filled(before) {
        assert f == before;
      } else {
        assert f == attempt && NoneFilled(space, end - 1, loads);
        assert Yields(space, end - 1, loads, f) && NoneYielded(space, end, end, loads);
      }
    } else {
      assert f == before;
    }
  }

  /** f is the first filled dictionary before end, or else the last empty one, or else what
      was held. */
  ghost predicate IsFallback(space: string, end: nat, loads: Parser, held: Option<Parsed>, f: Option<Parsed>) {
    || (exists k :: 0 <= k < end && Yields(space, k, loads, f) && Filled(f) && NoneFilled(space, k, loads))
    || (NoneFilled(space, end, loads)
        && ((exists k :: 0 <= k < end && Yields(space, k, loads, f) && NoneYielded(space, k + 1, end, loads))
            || (f == held && NoneYielded(space, 0, end, loads))))
  }

  ghost predicate NoneFilled(space: string, end: nat, loads: Parser) {
    forall k, value :: 0 <= k < end && Yields(space, k, loads, value) ==> !Filled(value)
  }

  ghost predicate NoneYielded(space: string, from: nat, end: nat, loads: Parser) {
    forall k, value :: from <= k < end ==> !Yields(space, k, loads, value)
  }
}

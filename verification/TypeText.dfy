/**
 The text of type names. The encoder splits a tuple at its top-level commas, minding brackets; the decoder splits
 at every comma. Both see the text of a type, which is rendered here.
 */
module TypeText {
  import opened CalldataDecoder

  function Trim(s: string): string {
    if s != [] && s[0] == ' ' then Trim(s[1..])
    else if s != [] && s[|s| - 1] == ' ' then Trim(s[..|s| - 1])
    else s
  }

  predicate IsPlain(c: char) { c != '(' && c != ')' && c != '<' && c != '>' && c != ',' }

  /** An identifier, as names are after simplification. */
  predicate IsIdentifier(
    s: string) { s != [] && forall i :: 0 <= i < |s| ==> IsPlain(s[i]) && s[i] != ' ' && s[i] != ';' }

  predicate HasIdentifiers(ty: Type) {
    match ty
    case Named(name) => IsIdentifier(name)
    case Array(e) => HasIdentifiers(e)
    case FixedArray(e, _) => HasIdentifiers(e)
    case Tuple(elements) => forall i :: 0 <= i < |elements| ==> HasIdentifiers(elements[i])
  }

  ghost predicate HaveIdentifiers(elements: seq<Type>) {
    forall i :: 0 <= i < |elements| ==> HasIdentifiers(elements[i])
  }

  lemma FirstHasIdentifiers(elements: seq<Type>)
    requires elements != [] && HaveIdentifiers(elements)
    ensures HasIdentifiers(elements[0]) && HaveIdentifiers(elements[1..])
  {
    hide HasIdentifiers;
  }

  function Digits(n: nat): (s: string)
    ensures IsIdentifier(s)
  {
    var digit := [('0' as int + n % 10) as char];
    if n < 10 then digit else Digits(n / 10) + digit
  }

  function Render(ty: Type): string
    decreases ty
  {
    match ty
    case Named(name) => name
    case Array(e) => "Array<" + Render(e) + ">"
    case FixedArray(e, len) => "[" + Render(e) + "; " + Digits(len) + "]"
    case Tuple(elements) => "(" + Joined(elements) + ")"
  }

  /** The elements of a tuple; a single one is followed by a comma. */
  function Joined(elements: seq<Type>): string
    decreases elements
  {
    if |elements| == 1 then Render(elements[0]) + "," else Listed(elements)
  }

  function Listed(elements: seq<Type>): string
    decreases elements, 0
  {
    if elements == [] then "" else if |elements| == 1 then Render(elements[0])
      else Render(elements[0]) + ", " + Listed(elements[1..])
  }

  function Texts(elements: seq<Type>): seq<string> {
    if elements == [] then [] else [Render(elements[0])] + Texts(elements[1..])
  }

  /** The first element's text, a comma, a space, and the others. */
  lemma ListedUnfolds(elements: seq<Type>)
    requires elements != []
    ensures |elements| == 1 ==> Listed(elements) == Render(elements[0])
    ensures |elements| > 1 ==> Listed(elements) == Render(elements[0]) + ([','] + ([' '] + Listed(elements[1..])))
    ensures Texts(elements) == [Render(elements[0])] + Texts(elements[1..])
  {
    hide Render;
    if |elements| > 1 { CommaSpace(Render(elements[0]), Listed(elements[1..])); }
  }

  lemma CommaSpace(a: string, b: string)
    ensures a + ", " + b == a + ([','] + ([' '] + b))
  {
  }

  lemma ThenMore(a: string, b: string, s: string)
    ensures a + ([','] + ([' '] + b)) + s == a + ([','] + ([' '] + (b + s)))
  {
  }

  lemma ThenOn(current: string, a: string, b: string)
    ensures current + a + [','] + [' '] + b == current + (a + ([','] + ([' '] + b)))
  {
  }

  // ---------------------------------------------------------------- splitting at top level

  function Segment(s: string): seq<string> {
    if Trim(s) == [] then [] else [Trim(s)]
  }

  /** The segments of `current + s`, where `current` is read already and the depths are those before `s`. */
  function Split(s: string, paren: int, angle: int, current: string): seq<string>
    decreases |s|
  {
    if s == [] then Segment(current)
    else if s[0] == ',' && paren == 0 && angle == 0 then Segment(current) + Split(s[1..], paren, angle, [])
    else
      Split(s[1..],
        if s[0] == '(' then paren + 1 else if s[0] == ')' then paren - 1 else paren,
        if s[0] == '<' then angle + 1 else if s[0] == '>' then angle - 1 else angle,
        current + [s[0]])
  }

  lemma SplitEnds(paren: int, angle: int, current: string)
    ensures Split([], paren, angle, current) == Segment(current)
  {
  }

  /** `parse_tuple_types`. */
  method ParseTupleTypes(inner: string) returns (types: seq<string>)
    ensures types == Split(inner, 0, 0, [])
  {
    hide Split, Trim;
    types := [];
    var start, paren, angle := 0, 0, 0;
    assert inner[0..] == inner && inner[0..0] == [] && [] + Split(inner, 0, 0, []) == Split(inner, 0, 0, []);
    for i := 0 to |inner|
      invariant 0 <= start <= i
      invariant types + Split(inner[i..], paren, angle, inner[start..i]) == Split(inner, 0, 0, [])
    {
      var c := inner[i];
      assert inner[i..] == [c] + inner[i + 1..];
      SplitStep(c, inner[i + 1..], paren, angle, inner[start..i]);
      assert inner[start..i] + [c] == inner[start..i + 1];
      if c == '(' {
        paren := paren + 1;
      } else if c == ')' {
        paren := paren - 1;
      } else if c == '<' {
        angle := angle + 1;
      } else if c == '>' {
        angle := angle - 1;
      } else if c == ',' && paren == 0 && angle == 0 {
        var segment := Trim(inner[start..i]);
        assert types + (Segment(inner[start..i]) + Split(inner[i + 1..], 0, 0, []))
            == types + Segment(inner[start..i]) + Split(inner[i + 1..], 0, 0, []);
        if segment != [] { types := types + [segment]; }
        start := i + 1;
        assert inner[start..i + 1] == [];
      }
    }
    var segment := Trim(inner[start..]);
    assert inner[start..|inner|] == inner[start..] && inner[|inner|..] == [];
    SplitEnds(paren, angle, inner[start..]);
    if segment != [] { types := types + [segment]; }
  }

  // ---------------------------------------------------------------- a rendered type is one piece

  lemma SplitStep(c: char, s: string, paren: int, angle: int, current: string)
    ensures Split([c] + s, paren, angle, current)
            == if c == ',' && paren == 0 && angle == 0 then Segment(current) + Split(s, paren, angle, [])
               else Split(s, if c == '(' then paren + 1 else if c == ')' then paren - 1 else paren,
                          if c == '<' then angle + 1 else if c == '>' then angle - 1 else angle, current + [c])
  {
    assert ([c] + s)[1..] == s;
  }

  lemma {:induction false} PlainIsOnePiece(t: string, s: string, paren: int, angle: int, current: string)
    requires forall i :: 0 <= i < |t| ==> IsPlain(t[i])
    ensures Split(t + s, paren, angle, current) == Split(s, paren, angle, current + t)
    decreases |t|
  {
    if t == [] {
      assert t + s == s && current + t == current;
    } else {
      assert t + s == [t[0]] + (t[1..] + s) && current + t == current + [t[0]] + t[1..];
      SplitStep(t[0], t[1..] + s, paren, angle, current);
      PlainIsOnePiece(t[1..], s, paren, angle, current + [t[0]]);
    }
  }

  lemma AngledIsOnePiece(t: string, s: string, paren: nat, angle: nat, current: string)
    requires var front := current + "Array" + ['<'];
             Split(t + (['>'] + s), paren, angle + 1, front) == Split(['>'] + s, paren, angle + 1, front + t)
    ensures Split("Array<" + t + ">" + s, paren, angle, current)
            == Split(s, paren, angle, current + ("Array<" + t + ">"))
  {
    hide Split;
    var front := current + "Array" + ['<'];
    assert "Array<" + t + ">" + s == "Array" + (['<'] + (t + (['>'] + s)));
    PlainIsOnePiece("Array", ['<'] + (t + (['>'] + s)), paren, angle, current);
    SplitStep('<', t + (['>'] + s), paren, angle, current + "Array");
    SplitStep('>', s, paren, angle + 1, front + t);
    assert front + t + ['>'] == current + ("Array<" + t + ">");
  }

  lemma SquaredIsOnePiece(t: string, back: string, s: string, paren: nat, angle: nat, current: string)
    requires forall i :: 0 <= i < |back| ==> IsPlain(back[i])
    requires Split(t + (back + s), paren, angle, current + "[") == Split(back + s, paren, angle, current + "[" + t)
    ensures Split("[" + t + back + s, paren, angle, current) == Split(s, paren, angle, current + ("[" + t + back))
  {
    hide Split;
    assert "[" + t + back + s == "[" + (t + (back + s)) && current + "[" + t + back == current + ("[" + t + back);
    PlainIsOnePiece("[", t + (back + s), paren, angle, current);
    PlainIsOnePiece(back, s, paren, angle, current + "[" + t);
  }

  lemma RoundIsOnePiece(t: string, s: string, paren: nat, angle: nat, current: string)
    requires Split(t + ([')'] + s), paren + 1, angle, current + ['('])
             == Split([')'] + s, paren + 1, angle, current + ['('] + t)
    ensures Split("(" + t + ")" + s, paren, angle, current) == Split(s, paren, angle, current + ("(" + t + ")"))
  {
    hide Split;
    assert "(" + t + ")" + s == ['('] + (t + ([')'] + s)) && current + ['('] + t + [')'] == current + ("(" + t + ")");
    SplitStep('(', t + ([')'] + s), paren, angle, current);
    SplitStep(')', s, paren + 1, angle, current + ['('] + t);
  }

  lemma {:induction false} TypeIsOnePiece(ty: Type, s: string, paren: nat, angle: nat, current: string)
    requires HasIdentifiers(ty)
    ensures Split(Render(ty) + s, paren, angle, current) == Split(s, paren, angle, current + Render(ty))
    decreases ty
  {
    hide Split;
    match ty {
      case Named(name) => PlainIsOnePiece(name, s, paren, angle, current);
      case Array(e) =>
        TypeIsOnePiece(e, ['>'] + s, paren, angle + 1, current + "Array" + ['<']);
        AngledIsOnePiece(Render(e), s, paren, angle, current);
      case FixedArray(e, len) =>
        var back := "; " + Digits(len) + "]";
        assert "[" + Render(e) + back == "[" + Render(e) + "; " + Digits(len) + "]";
        TypeIsOnePiece(e, back + s, paren, angle, current + "[");
        SquaredIsOnePiece(Render(e), back, s, paren, angle, current);
      case Tuple(elements) =>
        JoinedIsOnePiece(elements, [')'] + s, paren + 1, angle, current + ['(']);
        RoundIsOnePiece(Joined(elements), s, paren, angle, current);
    }
  }

  /** Below a bracket commas do not split. */
  lemma {:induction false} JoinedIsOnePiece(elements: seq<Type>, s: string, paren: nat, angle: nat, current: string)
    requires paren > 0 && HaveIdentifiers(elements)
    ensures Split(Joined(elements) + s, paren, angle, current) == Split(s, paren, angle, current + Joined(elements))
    decreases elements, 1
  {
    if |elements| == 1 {
      assert Joined(elements) + s == Render(elements[0]) + ([','] + s);
      TypeIsOnePiece(elements[0], [','] + s, paren, angle, current);
      SplitStep(',', s, paren, angle, current + Render(elements[0]));
      assert current + Render(elements[0]) + [','] == current + Joined(elements);
    } else {
      ListedIsOnePiece(elements, s, paren, angle, current);
    }
  }

  lemma NothingListed(s: string, current: string)
    ensures Listed([]) + s == s && current + Listed([]) == current
  {
  }

  lemma {:induction false} ListedIsOnePiece(elements: seq<Type>, s: string, paren: nat, angle: nat, current: string)
    requires paren > 0 && HaveIdentifiers(elements)
    ensures Split(Listed(elements) + s, paren, angle, current) == Split(s, paren, angle, current + Listed(elements))
    decreases elements, 0
  {
    hide Split, Render, Listed, Texts, HasIdentifiers, HaveIdentifiers;
    if elements == [] {
      NothingListed(s, current);
    } else {
      ListedUnfolds(elements);
      FirstHasIdentifiers(elements);
      if |elements| == 1 {
        TypeIsOnePiece(elements[0], s, paren, angle, current);
      } else {
        var first, others := Render(elements[0]), Listed(elements[1..]);
        ThenMore(first, others, s);
        ThenOn(current, first, others);
        TypeIsOnePiece(elements[0], [','] + ([' '] + (others + s)), paren, angle, current);
        SplitStep(',', [' '] + (others + s), paren, angle, current + first);
        SplitStep(' ', others + s, paren, angle, current + first + [',']);
        ListedIsOnePiece(elements[1..], s, paren, angle, current + first + [','] + [' ']);
      }
    }
  }

  // ---------------------------------------------------------------- what the encoder sees

  predicate IsTight(t: string) { t != [] && t[0] != ' ' && t[|t| - 1] != ' ' }

  lemma RenderIsTight(ty: Type)
    requires HasIdentifiers(ty)
    ensures IsTight(Render(ty))
  {
  }

  lemma TrimSpace(t: string)
    requires IsTight(t)
    ensures Trim(t) == t && Trim([' '] + t) == t && Segment(t) == [t] && Segment([' '] + t) == [t]
  {
    assert ([' '] + t)[1..] == t;
  }

  predicate IsLead(lead: string) { lead == [] || lead == [' '] }

  lemma SegmentOf(lead: string, t: string)
    requires IsLead(lead) && IsTight(t)
    ensures Segment(lead + t) == [t] && Trim(lead + t) == t
  {
    TrimSpace(t);
    assert [] + t == t;
  }

  /** A tight piece in front of a comma and a space. */
  lemma PieceThenComma(t: string, others: string, lead: string)
    requires IsLead(lead) && IsTight(t)
    ensures Split([','] + ([' '] + others), 0, 0, lead + t) == [t] + Split(others, 0, 0, [' '])
  {
    SegmentOf(lead, t);
    hide Split, Segment, Trim;
    SplitStep(',', [' '] + others, 0, 0, lead + t);
    SplitStep(' ', others, 0, 0, []);
    assert [] + [' '] == [' '];
  }

  /** `parse_tuple_types` finds exactly the texts of the element types, however they nest. */
  lemma {:induction false} SplitFindsElements(elements: seq<Type>, lead: string)
    requires elements != [] && IsLead(lead) && HaveIdentifiers(elements)
    ensures Split(Listed(elements), 0, 0, lead) == Texts(elements)
    decreases |elements|
  {
    hide Split, Segment, Trim, Render, Listed, Texts, HasIdentifiers, HaveIdentifiers, IsTight;
    var first := Render(elements[0]);
    FirstHasIdentifiers(elements);
    RenderIsTight(elements[0]);
    if |elements| == 1 {
      OneText(elements);
      TypeIsOnePiece(elements[0], [], 0, 0, lead);
      SegmentOf(lead, first);
      SplitNothing(lead + first);
    } else {
      var others := Listed(elements[1..]);
      ListedUnfolds(elements);
      TypeIsOnePiece(elements[0], [','] + ([' '] + others), 0, 0, lead);
      PieceThenComma(first, others, lead);
      SplitFindsElements(elements[1..], [' ']);
    }
  }

  lemma OneText(elements: seq<Type>)
    requires |elements| == 1
    ensures Texts(elements) == [Render(elements[0])] && Listed(elements) == Render(elements[0]) + []
  {
    assert Texts(elements[1..]) == [];
    assert Render(elements[0]) + [] == Render(elements[0]);
  }

  lemma SplitNothing(current: string)
    ensures Split([], 0, 0, current) == Segment(current) && SplitAll([], current) == [Trim(current)]
  {
  }

  // ---------------------------------------------------------------- what the decoder sees

  /** `extract_inner_types`: every comma splits, and empty segments stay. */
  function SplitAll(s: string, current: string): seq<string>
    decreases |s|
  {
    if s == [] then [Trim(current)]
    else if s[0] == ',' then [Trim(current)] + SplitAll(s[1..], [])
    else SplitAll(s[1..], current + [s[0]])
  }

  function Commas(s: string): nat {
    if s == [] then 0 else (if s[0] == ',' then 1 else 0) + Commas(s[1..])
  }

  lemma {:induction false} SegmentsAreCommas(s: string, current: string)
    ensures |SplitAll(s, current)| == Commas(s) + 1
    decreases |s|
  {
    if s != [] { SegmentsAreCommas(s[1..], if s[0] == ',' then [] else current + [s[0]]); }
  }

  lemma {:induction false} CommasAdd(a: string, b: string)
    ensures Commas(a + b) == Commas(a) + Commas(b)
    decreases |a|
  {
    if a == [] {
      assert a + b == b;
    } else {
      assert (a + b)[1..] == a[1..] + b;
      CommasAdd(a[1..], b);
    }
  }

  lemma {:induction false} PlainHasNoCommas(s: string)
    requires forall i :: 0 <= i < |s| ==> s[i] != ','
    ensures Commas(s) == 0
    decreases |s|
  {
    if s != [] { PlainHasNoCommas(s[1..]); }
  }

  lemma ArrayCommas(t: string)
    ensures Commas("Array<" + t + ">") == Commas(t)
  {
    hide Commas;
    CommasAdd("Array<" + t, ">");
    CommasAdd("Array<", t);
    PlainHasNoCommas("Array<");
    PlainHasNoCommas(">");
  }

  lemma FixedArrayCommas(t: string, len: string)
    requires IsIdentifier(len)
    ensures Commas("[" + t + "; " + len + "]") == Commas(t)
  {
    hide Commas;
    CommasAdd("[" + t + "; " + len, "]");
    CommasAdd("[" + t + "; ", len);
    CommasAdd("[" + t, "; ");
    CommasAdd("[", t);
    PlainHasNoCommas("[");
    PlainHasNoCommas("; ");
    PlainHasNoCommas(len);
    PlainHasNoCommas("]");
  }

  lemma TupleCommas(t: string)
    ensures Commas("(" + t + ")") == Commas(t)
  {
    hide Commas;
    CommasAdd("(" + t, ")");
    CommasAdd("(", t);
    PlainHasNoCommas("(");
    PlainHasNoCommas(")");
  }

  /** `HasComma` says whether the text of the type has a comma. */
  lemma {:induction false} HasCommaIsAboutText(ty: Type)
    requires HasIdentifiers(ty)
    ensures HasComma(ty) <==> Commas(Render(ty)) > 0
    decreases ty
  {
    hide Commas;
    match ty {
      case Named(name) => PlainHasNoCommas(name);
      case Array(e) =>
        HasCommaIsAboutText(e);
        ArrayCommas(Render(e));
      case FixedArray(e, len) =>
        HasCommaIsAboutText(e);
        FixedArrayCommas(Render(e), Digits(len));
      case Tuple(elements) =>
        TupleCommas(Joined(elements));
        JoinedCommas(elements);
    }
  }

  function CommasIn(elements: seq<Type>): nat {
    if elements == [] then 0 else Commas(Render(elements[0])) + CommasIn(elements[1..])
  }

  lemma {:induction false} ListedCommas(elements: seq<Type>)
    requires elements != []
    ensures Commas(Listed(elements)) == CommasIn(elements) + |elements| - 1
    decreases |elements|
  {
    if |elements| > 1 {
      CommasAdd(Render(elements[0]) + ", ", Listed(elements[1..]));
      CommasAdd(Render(elements[0]), ", ");
      assert Commas(", ") == 1 by { assert ", "[1..] == " " && Commas(" ") == 0 by { PlainHasNoCommas(" "); } }
      ListedCommas(elements[1..]);
    } else {
      assert CommasIn(elements[1..]) == 0;
    }
  }

  lemma JoinedCommas(elements: seq<Type>)
    ensures Commas(Joined(elements)) > 0 <==> elements != []
  {
    if |elements| == 1 {
      CommasAdd(Render(elements[0]), ",");
      assert Commas(",") == 1 by { assert ","[1..] == ""; }
    } else if |elements| > 1 {
      ListedCommas(elements);
    }
  }

  lemma {:induction false} SplitAllKeeps(t: string, s: string, current: string)
    requires Commas(t) == 0
    ensures SplitAll(t + s, current) == SplitAll(s, current + t)
    decreases |t|
  {
    if t == [] {
      assert t + s == s && current + t == current;
    } else {
      assert (t + s)[1..] == t[1..] + s && current + t == current + [t[0]] + t[1..];
      SplitAllKeeps(t[1..], s, current + [t[0]]);
    }
  }

  lemma PieceThenAnyComma(t: string, others: string, lead: string)
    requires IsLead(lead) && IsTight(t)
    ensures SplitAll([','] + ([' '] + others), lead + t) == [t] + SplitAll(others, [' '])
  {
    SegmentOf(lead, t);
    assert ([','] + ([' '] + others))[1..] == [' '] + others && ([' '] + others)[1..] == others && [] + [' '] == [' '];
  }

  lemma {:induction false} FlatSplitsFully(elements: seq<Type>, lead: string)
    requires elements != [] && IsLead(lead) && HaveIdentifiers(elements)
    requires CommasIn(elements) == 0
    ensures SplitAll(Listed(elements), lead) == Texts(elements)
    decreases |elements|
  {
    hide SplitAll, Segment, Trim, Render, Listed, Texts, HasIdentifiers, HaveIdentifiers, IsTight, Commas;
    var first := Render(elements[0]);
    FirstHasIdentifiers(elements);
    RenderIsTight(elements[0]);
    if |elements| == 1 {
      OneText(elements);
      SplitAllKeeps(first, [], lead);
      SegmentOf(lead, first);
      SplitNothing(lead + first);
    } else {
      var others := Listed(elements[1..]);
      ListedUnfolds(elements);
      SplitAllKeeps(first, [','] + ([' '] + others), lead);
      PieceThenAnyComma(first, others, lead);
      FlatSplitsFully(elements[1..], [' ']);
    }
  }

  lemma {:induction false} TextsCount(elements: seq<Type>)
    ensures |Texts(elements)| == |elements|
  {
    if elements != [] { TextsCount(elements[1..]); }
  }

  lemma {:induction false} CommasInNone(elements: seq<Type>)
    requires HaveIdentifiers(elements)
    ensures CommasIn(elements) == 0 <==> forall i :: 0 <= i < |elements| ==> !HasComma(elements[i])
    decreases |elements|
  {
    if elements != [] {
      HasCommaIsAboutText(elements[0]);
      CommasInNone(elements[1..]);
      assert forall i :: 0 < i < |elements| ==> elements[i] == elements[1..][i - 1];
      assert forall i :: 0 <= i < |elements| - 1 ==> elements[1..][i] == elements[i + 1];
    }
  }

  /** The decoder finds the element types of a tuple exactly if none of them has a comma in its text. */
  lemma DecoderSplitsFlatTuplesOnly(elements: seq<Type>)
    requires |elements| >= 2 && HaveIdentifiers(elements)
    ensures SplitAll(Listed(elements), []) == Texts(elements)
            <==> forall i :: 0 <= i < |elements| ==> !HasComma(elements[i])
  {
    CommasInNone(elements);
    if CommasIn(elements) == 0 {
      FlatSplitsFully(elements, []);
    } else {
      SegmentsAreCommas(Listed(elements), []);
      ListedCommas(elements);
      TextsCount(elements);
    }
  }
}

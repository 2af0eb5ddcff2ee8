/** The `$`-reference expander of the runner: `Expand` and `GetShellName`.

    A Go string is a sequence of bytes. A byte is a character here: nothing below depends on
    there being only 256 of them. */
module Expander {

  type Byte = char
  type Bytes = seq<Byte>

  predicate IsShellSpecialVar(c: Byte) {
    c in {'*', '#', '$', '@', '!', '?', '-', '0', '1', '2', '3', '4', '5', '6', '7', '8', '9'}
  }

  predicate IsAlphaNum(c: Byte) {
    c == '_' || '0' <= c <= '9' || 'a' <= c <= 'z' || 'A' <= c <= 'Z'
  }

  /** What `GetShellName` returns: the referenced name and the number of bytes it consumed. */
  datatype ShellName = ShellName(name: Bytes, width: nat)

  // ----- The source's scanner ---------------------------------------------------------------

  /** The scan for the closing delimiter shared by the brace and parenthesis cases. */
  method ScanToClosing(s: Bytes, closing: Byte) returns (r: ShellName)
    requires |s| > 0 && s[0] != closing
    ensures r == Delimited(s, closing)
  {
    for i := 1 to |s|
      invariant forall k :: 1 <= k < i ==> s[k] != closing
    {
      if s[i] == closing {
        FirstIndexUnique(s, closing, i);
        if i == 1 {
          return ShellName([], 2);
        }
        return ShellName(s[1..i], i + 1);
      }
    }
    FirstIndexUnique(s, closing, |s|);
    return ShellName([], 1);
  }

  /** `GetShellName`: every Go slice in it is in range whenever the string is not empty. */
  method GetShellName(s: Bytes) returns (r: ShellName)
    requires |s| > 0
    ensures r == Reference(s)
    ensures r.width <= |s|
  {
    ReferenceWidth(s);
    if s[0] == '{' {
      if |s| > 2 && IsShellSpecialVar(s[1]) && s[2] == '}' {
        FirstIndexUnique(s, '}', 2);
        return ShellName(s[1..2], 3);
      }
      r := ScanToClosing(s, '}');
    } else if s[0] == '(' {
      if |s| > 2 && IsShellSpecialVar(s[1]) && s[2] == ')' {
        FirstIndexUnique(s, ')', 2);
        return ShellName(s[1..2], 3);
      }
      r := ScanToClosing(s, ')');
    } else if IsShellSpecialVar(s[0]) {
      return ShellName(s[0..1], 1);
    } else {
      var i := 0;
      while i < |s| && IsAlphaNum(s[i])
        invariant 0 <= i <= |s|
        invariant AlphaNumPrefix(s) == i + AlphaNumPrefix(s[i..])
      {
        assert s[i..][1..] == s[i + 1..];
        i := i + 1;
      }
      return ShellName(s[..i], i);
    }
  }

  /** The switch in `Expand` on what the scanner found. */
  method Substitute(ref: ShellName, mapping: Bytes -> Bytes) returns (piece: Bytes)
    ensures piece == Replacement(ref, mapping)
  {
    if ref.name == [] && ref.width > 0 {
      piece := [];      // bad syntax: eat the characters
    } else if ref.name == [] {
      piece := ['$'];   // valid syntax, but no name: leave the dollar untouched
    } else {
      piece := mapping(ref.name);
    }
  }

  /** `Expand`: an output buffer, the start `i` of the text not yet copied, and the cursor `j`. */
  method Expand(s: Bytes, mapping: Bytes -> Bytes) returns (r: Bytes)
    ensures r == Meaning(s, mapping)
  {
    hide Progress;
    var buf: Bytes := [];
    var touched := false;   // the source's buf != nil
    var i, j := 0, 0;
    NothingRead(s, mapping);
    while j < |s|
      invariant 0 <= i <= j <= |s|
      invariant !touched ==> buf == [] && i == 0
      invariant Progress(s, mapping, buf, i, j)
      decreases |s| - j
    {
      if s[j] == '$' && j + 1 < |s| {
        touched := true;
        StepOverReference(s, mapping, buf, i, j);
        var ref := GetShellName(s[j + 1..]);
        var piece := Substitute(ref, mapping);
        buf := buf + s[i..j] + piece;
        j := j + ref.width;
        i := j + 1;
      } else {
        StepOverByte(s, mapping, buf, i, j);
      }
      j := j + 1;
    }
    AllRead(s, mapping, buf, i);
    if !touched {
      return s;
    }
    r := buf + s[i..];
  }

  // ----- The recursive meaning ---------------------------------------------------------------

  /** The first position at or after `from` holding `c`, or the length if there is none. */
  function FirstIndex(s: Bytes, c: Byte, from: nat): (r: nat)
    requires from <= |s|
    ensures from <= r <= |s|
    ensures forall k :: from <= k < r ==> s[k] != c
    ensures r < |s| ==> s[r] == c
    decreases |s| - from
  {
    if from == |s| || s[from] == c then from else FirstIndex(s, c, from + 1)
  }

  lemma FirstIndexUnique(s: Bytes, c: Byte, i: nat)
    requires 1 <= i <= |s|
    requires forall k :: 1 <= k < i ==> s[k] != c
    requires i < |s| ==> s[i] == c
    ensures FirstIndex(s, c, 1) == i
  {
    var r := FirstIndex(s, c, 1);
    assert r >= i;
  }

  function AlphaNumPrefix(s: Bytes): (n: nat)
    ensures n <= |s|
    ensures forall k :: 0 <= k < n ==> IsAlphaNum(s[k])
    ensures n < |s| ==> !IsAlphaNum(s[n])
  {
    if |s| == 0 || !IsAlphaNum(s[0]) then 0 else 1 + AlphaNumPrefix(s[1..])
  }

  /** The text between an opening delimiter and the first closing one. */
  function Delimited(s: Bytes, closing: Byte): ShellName
    requires |s| > 0
  {
    var i := FirstIndex(s, closing, 1);
    if i == |s| then ShellName([], 1)        // never closed: only the opener is consumed
    else ShellName(s[1..i], i + 1)
  }

  /** The reference that follows a dollar. */
  function Reference(s: Bytes): ShellName
    requires |s| > 0
  {
    if s[0] == '{' then Delimited(s, '}')
    else if s[0] == '(' then Delimited(s, ')')
    else if IsShellSpecialVar(s[0]) then ShellName([s[0]], 1)
    else ShellName(s[..AlphaNumPrefix(s)], AlphaNumPrefix(s))
  }

  lemma ReferenceWidth(s: Bytes)
    requires |s| > 0
    ensures Reference(s).width <= |s|
    ensures |Reference(s).name| <= Reference(s).width
  {
  }

  /** What a reference is replaced by: bad syntax vanishes, a dollar with no name after it stays. */
  function Replacement(ref: ShellName, mapping: Bytes -> Bytes): Bytes {
    if ref.name != [] then mapping(ref.name) else if ref.width > 0 then [] else "$"
  }

  /** Left-to-right meaning: a byte stands for itself, a reference for its replacement. */
  function Meaning(s: Bytes, mapping: Bytes -> Bytes): Bytes
    decreases |s|
  {
    if s == [] then []
    else if s[0] == '$' && |s| > 1 then
      var ref := Reference(s[1..]);
      ReferenceWidth(s[1..]);
      Replacement(ref, mapping) + Meaning(s[1..][ref.width..], mapping)
    else [s[0]] + Meaning(s[1..], mapping)
  }

  /** The meaning of a dollar followed by `refText`, which reads as one reference, and then `rest`. */
  lemma MeaningAtDollar(s: Bytes, refText: Bytes, rest: Bytes, mapping: Bytes -> Bytes)
    requires refText + rest != [] && s == ['$'] + (refText + rest)
    requires Reference(refText + rest).width == |refText|
    ensures Meaning(s, mapping) == Replacement(Reference(refText + rest), mapping) + Meaning(rest, mapping)
  {
    assert s[1..] == refText + rest;
    assert s[1..][|refText|..] == rest;
  }

  /** The loop invariant: what is written, what is pending, and what is still to be read. */
  ghost predicate Progress(s: Bytes, mapping: Bytes -> Bytes, buf: Bytes, i: nat, j: nat) {
    i <= j <= |s| && Meaning(s, mapping) == buf + s[i..j] + Meaning(s[j..], mapping)
  }

  lemma NothingRead(s: Bytes, mapping: Bytes -> Bytes)
    ensures Progress(s, mapping, [], 0, 0)
  {
    assert s[0..] == s;
  }

  lemma AllRead(s: Bytes, mapping: Bytes -> Bytes, buf: Bytes, i: nat)
    requires Progress(s, mapping, buf, i, |s|)
    ensures buf + s[i..] == Meaning(s, mapping)
  {
    assert s[i..|s|] == s[i..];
  }

  lemma StepOverByte(s: Bytes, mapping: Bytes -> Bytes, buf: Bytes, i: nat, j: nat)
    requires Progress(s, mapping, buf, i, j) && j < |s|
    requires s[j] != '$' || j + 1 == |s|
    ensures Progress(s, mapping, buf, i, j + 1)
  {
    assert s[j..][1..] == s[j + 1..];
    assert s[i..j + 1] == s[i..j] + [s[j]];
    assert Meaning(s[j..], mapping) == [s[j]] + Meaning(s[j + 1..], mapping);
  }

  lemma StepOverReference(s: Bytes, mapping: Bytes -> Bytes, buf: Bytes, i: nat, j: nat)
    requires Progress(s, mapping, buf, i, j) && j + 1 < |s| && s[j] == '$'
    ensures var ref := Reference(s[j + 1..]);
            var next := j + 1 + ref.width;
            Progress(s, mapping, buf + s[i..j] + Replacement(ref, mapping), next, next)
  {
    var ref := Reference(s[j + 1..]);
    MeaningFromReference(s, mapping, j);
    var next := j + 1 + ref.width;
    Regroup(buf + s[i..j], Replacement(ref, mapping), Meaning(s[next..], mapping));
    assert s[next..next] == [];
  }

  lemma MeaningFromReference(s: Bytes, mapping: Bytes -> Bytes, j: nat)
    requires j + 1 < |s| && s[j] == '$'
    ensures var ref := Reference(s[j + 1..]);
            && j + 1 + ref.width <= |s|
            && Meaning(s[j..], mapping) == Replacement(ref, mapping) + Meaning(s[j + 1 + ref.width..], mapping)
  {
    var tail := s[j + 1..];
    ReferenceWidth(tail);
    var w := Reference(tail).width;
    assert tail[..w] + s[j + 1 + w..] == tail;
    MeaningAtDollar(s[j..], tail[..w], s[j + 1 + w..], mapping);
  }

  lemma Regroup(a: Bytes, b: Bytes, c: Bytes)
    ensures a + (b + c) == a + b + [] + c
  {
  }

  // ----- Rendered token lists -------------------------------------------------------------------

  /** The four ways of writing a reference, and literal text. */
  datatype Token =
    | Literal(text: Bytes)
    | Paren(name: Bytes)       // $(name)
    | Braced(name: Bytes)      // ${name}
    | Bare(name: Bytes)        // $name
    | Special(c: Byte)         // $*

  function RenderOne(t: Token): Bytes {
    match t
    case Literal(text) => text
    case Paren(name) => "$(" + name + ")"
    case Braced(name) => "${" + name + "}"
    case Bare(name) => "$" + name
    case Special(c) => ['$', c]
  }

  function Render(ts: seq<Token>): Bytes {
    if ts == [] then [] else RenderOne(ts[0]) + Render(ts[1..])
  }

  function ValueOne(t: Token, mapping: Bytes -> Bytes): Bytes {
    match t
    case Literal(text) => text
    case Paren(name) => mapping(name)
    case Braced(name) => mapping(name)
    case Bare(name) => mapping(name)
    case Special(c) => mapping([c])
  }

  function Value(ts: seq<Token>, mapping: Bytes -> Bytes): Bytes {
    if ts == [] then [] else ValueOne(ts[0], mapping) + Value(ts[1..], mapping)
  }

  /** Whether `t` can be written immediately before the text `rest` and read back as itself. */
  predicate Separable(t: Token, rest: Bytes) {
    match t
    case Literal(text) => '$' !in text
    case Paren(name) => name != [] && ')' !in name
    case Braced(name) => name != [] && '}' !in name
    case Bare(name) =>
      && name != [] && !('0' <= name[0] <= '9')
      && (forall c <- name :: c == '_' || '0' <= c <= '9' || 'a' <= c <= 'z' || 'A' <= c <= 'Z')
      && (rest != [] ==>
            var c := rest[0]; !(c == '_' || '0' <= c <= '9' || 'a' <= c <= 'z' || 'A' <= c <= 'Z'))
    case Special(c) => c in "*#$@!?-0123456789"
  }

  predicate WellFormed(ts: seq<Token>) {
    ts == [] || (Separable(ts[0], Render(ts[1..])) && WellFormed(ts[1..]))
  }

  lemma {:induction false} MeaningOfLiteral(text: Bytes, rest: Bytes, mapping: Bytes -> Bytes)
    requires '$' !in text
    ensures Meaning(text + rest, mapping) == text + Meaning(rest, mapping)
  {
    if text == [] {
      assert text + rest == rest;
    } else {
      assert (text + rest)[1..] == text[1..] + rest;
      MeaningOfLiteral(text[1..], rest, mapping);
    }
  }

  lemma DelimitedOf(opening: Byte, name: Bytes, closing: Byte, rest: Bytes)
    requires name != [] && closing !in name && opening != closing
    ensures Delimited([opening] + name + [closing] + rest, closing) == ShellName(name, |name| + 2)
  {
    var s := [opening] + name + [closing] + rest;
    forall k | 1 <= k < |name| + 1 ensures s[k] != closing {
      assert s[k] == name[k - 1];
    }
    FirstIndexUnique(s, closing, |name| + 1);
    assert s[1..|name| + 1] == name;
  }

  lemma BareOf(name: Bytes, rest: Bytes)
    requires forall c <- name :: IsAlphaNum(c)
    requires rest != [] ==> !IsAlphaNum(rest[0])
    ensures AlphaNumPrefix(name + rest) == |name|
  {
    var s := name + rest;
    var n := AlphaNumPrefix(s);
    assert forall k :: 0 <= k < |name| ==> s[k] == name[k] && name[k] in name;
    assert n >= |name|;
    assert rest != [] ==> s[|name|] == rest[0];
  }

  lemma MeaningOfDelimited(opening: Byte, name: Bytes, closing: Byte, rest: Bytes, mapping: Bytes -> Bytes)
    requires (opening == '(' && closing == ')') || (opening == '{' && closing == '}')
    requires name != [] && closing !in name
    ensures Meaning(['$', opening] + name + [closing] + rest, mapping) == mapping(name) + Meaning(rest, mapping)
  {
    var refText := [opening] + name + [closing];
    DelimitedOf(opening, name, closing, rest);
    assert ['$', opening] + name + [closing] + rest == ['$'] + (refText + rest);
    MeaningAtDollar(['$', opening] + name + [closing] + rest, refText, rest, mapping);
  }

  lemma MeaningOfBare(name: Bytes, rest: Bytes, mapping: Bytes -> Bytes)
    requires Separable(Bare(name), rest)
    ensures Meaning("$" + name + rest, mapping) == mapping(name) + Meaning(rest, mapping)
  {
    var s := name + rest;
    BareOf(name, rest);
    assert name[0] in name && s[0] == name[0];
    assert s[..|name|] == name;
    assert "$" + name + rest == ['$'] + s;
    MeaningAtDollar("$" + name + rest, name, rest, mapping);
  }

  lemma SpecialReference(c: Byte, rest: Bytes)
    requires c in "*#$@!?-0123456789"
    ensures Reference([c] + rest) == ShellName([c], 1)
  {
  }

  /** One token in front of any text contributes exactly its own value. */
  lemma MeaningOfToken(t: Token, rest: Bytes, mapping: Bytes -> Bytes)
    requires Separable(t, rest)
    ensures Meaning(RenderOne(t) + rest, mapping) == ValueOne(t, mapping) + Meaning(rest, mapping)
  {
    hide Meaning, Reference;
    match t
    case Literal(text) => MeaningOfLiteral(text, rest, mapping);
    case Paren(name) => MeaningOfDelimited('(', name, ')', rest, mapping);
    case Braced(name) => MeaningOfDelimited('{', name, '}', rest, mapping);
    case Bare(name) => MeaningOfBare(name, rest, mapping);
    case Special(c) =>
      SpecialReference(c, rest);
      assert ['$', c] + rest == ['$'] + ([c] + rest);
      MeaningAtDollar(['$', c] + rest, [c], rest, mapping);
  }

  /** A dollar with no name after it stays, at the end of the text or in front of a byte that begins no
      reference. */
  lemma DollarStays(rest: Bytes, mapping: Bytes -> Bytes)
    requires rest != [] ==>
               var c := rest[0];
               && c != '{' && c != '(' && c !in "*#$@!?-"
               && !(c == '_' || '0' <= c <= '9' || 'a' <= c <= 'z' || 'A' <= c <= 'Z')
    ensures Meaning(['$'] + rest, mapping) == ['$'] + Meaning(rest, mapping)
  {
    if rest == [] {
      assert ['$'] + rest == ['$'];
    } else {
      assert [] + rest == rest;
      MeaningAtDollar(['$'] + rest, [], rest, mapping);
    }
  }

  /** Bad syntax vanishes: an empty reference altogether, and of one that is never closed the dollar and
      the delimiter alone. */
  lemma BadSyntaxVanishes(opening: Byte, closing: Byte, rest: Bytes, mapping: Bytes -> Bytes)
    requires (opening == '(' && closing == ')') || (opening == '{' && closing == '}')
    ensures Meaning(['$', opening, closing] + rest, mapping) == Meaning(rest, mapping)
    ensures closing !in rest ==> Meaning(['$', opening] + rest, mapping) == Meaning(rest, mapping)
  {
    hide Meaning;
    EmptyReference(opening, closing, rest);
    assert ['$', opening, closing] + rest == ['$'] + ([opening, closing] + rest);
    MeaningAtDollar(['$', opening, closing] + rest, [opening, closing], rest, mapping);
    if closing !in rest {
      UnclosedReference(opening, closing, rest);
      assert ['$', opening] + rest == ['$'] + ([opening] + rest);
      MeaningAtDollar(['$', opening] + rest, [opening], rest, mapping);
    }
  }

  lemma EmptyReference(opening: Byte, closing: Byte, rest: Bytes)
    requires (opening == '(' && closing == ')') || (opening == '{' && closing == '}')
    ensures Reference([opening, closing] + rest) == ShellName([], 2)
  {
    FirstIndexUnique([opening, closing] + rest, closing, 1);
  }

  lemma UnclosedReference(opening: Byte, closing: Byte, rest: Bytes)
    requires (opening == '(' && closing == ')') || (opening == '{' && closing == '}')
    requires closing !in rest
    ensures Reference([opening] + rest) == ShellName([], 1)
  {
    var s := [opening] + rest;
    assert forall k :: 1 <= k < |s| ==> s[k] == rest[k - 1];
    FirstIndexUnique(s, closing, |s|);
  }

  /** Expanding a rendered token list gives the concatenated values of its tokens. */
  lemma {:induction false} ExpandRendered(ts: seq<Token>, mapping: Bytes -> Bytes)
    requires WellFormed(ts)
    ensures Meaning(Render(ts), mapping) == Value(ts, mapping)
  {
    if ts != [] {
      MeaningOfToken(ts[0], Render(ts[1..]), mapping);
      ExpandRendered(ts[1..], mapping);
    }
  }
}

/** The text handling of alert.conf: white space, words and ${NAME} references
  (internal/adapter/alertconf/alertconf.go). */
module ConfText {
  import opened Domain
  import Paths

  // ----- white space and words -----

  /** Unicode white space, as strings.TrimSpace and strings.Fields see it. */
  predicate IsSpace(c: char) {
    || c in {'\t', '\n', '\U{B}', '\U{C}', '\r', ' ', '\U{85}', '\U{A0}', '\U{1680}'}
    || '\U{2000}' <= c <= '\U{200A}'
    || c in {'\U{2028}', '\U{2029}', '\U{202F}', '\U{205F}', '\U{3000}'}
  }

  function TrimLeft(s: string): string { if s != "" && IsSpace(s[0]) then TrimLeft(s[1..]) else s }

  function TrimRight(s: string): string { if s != "" && IsSpace(s[|s| - 1]) then TrimRight(s[..|s| - 1]) else s }

  function TrimSpace(s: string): string { TrimRight(TrimLeft(s)) }

  predicate Word(s: string) { s != "" && forall i :: 0 <= i < |s| ==> !IsSpace(s[i]) }

  /** Length of the leading run of characters that are no space. */
  function WordLen(s: string): (n: nat)
    ensures n <= |s|
    ensures forall i :: 0 <= i < n ==> !IsSpace(s[i])
    ensures n < |s| ==> IsSpace(s[n])
  {
    if s == "" || IsSpace(s[0]) then 0 else 1 + WordLen(s[1..])
  }

  function Fields(s: string): (ws: seq<string>)
    ensures forall i :: 0 <= i < |ws| ==> Word(ws[i])
    decreases |s|
  {
    if s == "" then []
    else if IsSpace(s[0]) then Fields(s[1..])
    else
      var n := WordLen(s);
      [s[..n]] + Fields(s[n..])
  }

  function JoinWords(ws: seq<string>): string {
    if ws == [] then "" else if |ws| == 1 then ws[0] else ws[0] + (" " + JoinWords(ws[1..]))
  }

  ghost predicate AllWords(ws: seq<string>) { forall i :: 0 <= i < |ws| ==> Word(ws[i]) }

  lemma FirstField(w: string, rest: string)
    requires Word(w) && (rest == "" || IsSpace(rest[0]))
    ensures Fields(w + rest) == [w] + Fields(rest)
  {
    var s := w + rest;
    var n := WordLen(s);
    assert s[0] == w[0];
    assert forall i :: 0 <= i < |w| ==> s[i] == w[i];
    assert n < |s| ==> n >= |w|;
    assert rest != "" ==> s[|w|] == rest[0];
    assert s[..|w|] == w && s[|w|..] == rest;
  }

  /** Words joined by blanks are found again. */
  lemma {:induction false} FieldsOfJoined(ws: seq<string>)
    requires AllWords(ws)
    ensures Fields(JoinWords(ws)) == ws
  {
    hide Word, IsSpace;
    if ws != [] {
      assert ws == [ws[0]] + ws[1..];
      FieldsOfJoined(ws[1..]);
      if |ws| == 1 {
        FirstField(ws[0], "");
        assert ws[0] + "" == ws[0];
      } else {
        BlankIsSpace();
        var tail := JoinWords(ws[1..]);
        FirstField(ws[0], " " + tail);
        assert (" " + tail)[1..] == tail;
        assert Fields(" " + tail) == Fields(tail);
      }
    }
  }

  lemma BlankIsSpace()
    ensures IsSpace(' ')
  {
  }

  lemma {:induction false} JoinedEnds(ws: seq<string>)
    requires AllWords(ws) && ws != []
    ensures var s := JoinWords(ws); s != "" && s[0] == ws[0][0] && !IsSpace(s[0]) && !IsSpace(s[|s| - 1])
  {
    hide IsSpace;
    if |ws| > 1 {
      JoinedEnds(ws[1..]);
    }
  }

  lemma NothingToTrim(s: string)
    requires s != "" && !IsSpace(s[0]) && !IsSpace(s[|s| - 1])
    ensures TrimSpace(s) == s
  {
  }

  // ----- references to the environment -----

  type Lookup = string -> Option<string>

  /** Position of the first closing brace, or the length. */
  function ClosingBrace(s: string): (n: nat)
    ensures n <= |s|
    ensures n < |s| ==> s[n] == '}'
    ensures forall i :: 0 <= i < n ==> s[i] != '}'
  {
    if s == "" || s[0] == '}' then 0 else 1 + ClosingBrace(s[1..])
  }

  /** Length of the reference `s` starts with, or 0. */
  function RefLen(s: string): (n: nat)
    ensures n == 0 || 3 <= n <= |s|
  {
    if !("${" <= s) then 0
    else
      var n := ClosingBrace(s[2..]);
      if 2 + n == |s| then 0 else n + 3
  }

  /** Every reference replaced, and the first one that is not set, if any. */
  function Replaced(s: string, lookup: Lookup): (string, Option<string>)
    decreases |s|
  {
    if s == "" then ("", None)
    else
      var n := RefLen(s);
      if n == 0 then
        var (out, missing) := Replaced(s[1..], lookup);
        ([s[0]] + out, missing)
      else
        var (out, missing) := Replaced(s[n..], lookup);
        var v := lookup(s[2..n - 1]);
        (v.GetOr("") + out, if v.None? then Some(s[..n]) else missing)
  }

  /** `out` and `missing` are right up to position `i`. */
  ghost predicate ReplacedTo(line: string, i: nat, lookup: Lookup, out: string, missing: Option<string>) {
    i <= |line| &&
    var rest := Replaced(line[i..], lookup);
    Replaced(line, lookup) == (out + rest.0, if missing.Some? then missing else rest.1)
  }

  /** The scan: what is replaced so far and the first reference that was not set. */
  method Expand(line: string, lookup: Option<Lookup>) returns (out: string, missing: Option<string>)
    ensures lookup.None? ==> out == line && missing == None
    ensures lookup.Some? ==> (out, missing) == Replaced(line, lookup.value)
  {
    hide Replaced, RefLen, ReplacedTo;
    if lookup.None? {
      return line, None;
    }
    out, missing := "", None;
    ReplacedStarts(line, lookup.value);
    var i := 0;
    while i < |line|
      invariant 0 <= i <= |line|
      invariant ReplacedTo(line, i, lookup.value, out, missing)
    {
      ReplacedGrows(line, i, lookup.value, out, missing);
      var n := RefLen(line[i..]);
      if n == 0 {
        out := out + [line[i]];
        i := i + 1;
      } else {
        var v := lookup.value(line[i + 2..i + n - 1]);
        if v.None? && missing.None? {
          missing := Some(line[i..i + n]);
        }
        out := out + v.GetOr("");
        i := i + n;
      }
    }
    ReplacedEnds(line, lookup.value, out, missing);
  }

  lemma ReplacedStarts(line: string, lookup: Lookup)
    ensures ReplacedTo(line, 0, lookup, "", None)
  {
    assert line[0..] == line && "" + Replaced(line, lookup).0 == Replaced(line, lookup).0;
  }

  lemma ReplacedEnds(line: string, lookup: Lookup, out: string, missing: Option<string>)
    requires ReplacedTo(line, |line|, lookup, out, missing)
    ensures Replaced(line, lookup) == (out, missing)
  {
    NothingReplaced(lookup);
    assert line[|line|..] == "" && out + "" == out;
  }

  lemma ReplacedGrows(line: string, i: nat, lookup: Lookup, out: string, missing: Option<string>)
    requires i < |line| && ReplacedTo(line, i, lookup, out, missing)
    ensures var n := RefLen(line[i..]);
            if n == 0 then ReplacedTo(line, i + 1, lookup, out + [line[i]], missing)
            else
              var v := lookup(line[i + 2..i + n - 1]);
              ReplacedTo(line, i + n, lookup, out + v.GetOr(""),
                         if v.None? && missing.None? then Some(line[i..i + n]) else missing)
  {
    hide Replaced, RefLen;
    ReplacedHere(line, i, lookup);
    var n := RefLen(line[i..]);
    if n == 0 {
      Paths.Regroup(out, [line[i]], Replaced(line[i + 1..], lookup).0);
    } else {
      Paths.Regroup(out, lookup(line[i + 2..i + n - 1]).GetOr(""), Replaced(line[i + n..], lookup).0);
    }
  }

  lemma ReplacedHere(line: string, i: nat, lookup: Lookup)
    requires i < |line|
    ensures var n := RefLen(line[i..]);
            if n == 0 then
              var rest := Replaced(line[i + 1..], lookup);
              Replaced(line[i..], lookup) == ([line[i]] + rest.0, rest.1)
            else
              var rest := Replaced(line[i + n..], lookup);
              var v := lookup(line[i + 2..i + n - 1]);
              Replaced(line[i..], lookup) == (v.GetOr("") + rest.0, if v.None? then Some(line[i..i + n]) else rest.1)
  {
    var s := line[i..];
    assert s[1..] == line[i + 1..];
    var n := RefLen(s);
    if n > 0 {
      assert s[n..] == line[i + n..] && s[2..n - 1] == line[i + 2..i + n - 1] && s[..n] == line[i..i + n];
    }
  }

  /** What starts with a reference: "${", a name, and the first "}" after it. */
  lemma RefLenIff(s: string)
    ensures RefLen(s) > 0 <==> exists name, rest :: IsRefThen(s, name, rest)
  {
    if RefLen(s) > 0 {
      var n := RefLen(s);
      var tail := s[2..];
      assert tail[n - 3] == '}' && tail == tail[..n - 3] + ("}" + tail[n - 2..]);
      assert s == "${" + tail;
      assert IsRefThen(s, tail[..n - 3], tail[n - 2..]);
    }
    if name, rest :| IsRefThen(s, name, rest) {
      ClosingAt(name, rest);
      assert s[2..] == name + ("}" + rest);
    }
  }

  ghost predicate IsRefThen(s: string, name: string, rest: string) {
    '}' !in name && s == "${" + (name + ("}" + rest))
  }

  /** Nowhere in `text`, when `rest` follows it, does a reference start. */
  ghost predicate NoRefIn(text: string, rest: string) {
    forall i :: 0 <= i < |text| ==> RefLen((text + rest)[i..]) == 0
  }

  /** A line as text outside references and references to names. */
  datatype Piece = Literal(text: string) | Ref(name: string)

  /** The references are just the pieces that say so: none starts inside a literal, not even one that ends behind it. */
  ghost predicate GoodPieces(ps: seq<Piece>) {
    ps != [] ==>
      && GoodPieces(ps[1..])
      && match ps[0]
         case Literal(text) => NoRefIn(text, WrittenAll(ps[1..]))
         case Ref(name) => '}' !in name
  }

  function Written(p: Piece): string {
    match p
    case Literal(text) => text
    case Ref(name) => "${" + (name + "}")
  }

  function Value(p: Piece, lookup: Lookup): string {
    match p
    case Literal(text) => text
    case Ref(name) => lookup(name).GetOr("")
  }

  function WrittenAll(ps: seq<Piece>): string { if ps == [] then "" else Written(ps[0]) + WrittenAll(ps[1..]) }

  function ValueAll(ps: seq<Piece>, lookup: Lookup): string {
    if ps == [] then "" else Value(ps[0], lookup) + ValueAll(ps[1..], lookup)
  }

  /** The first piece that names something not set. */
  function FirstUnset(ps: seq<Piece>, lookup: Lookup): Option<string> {
    if ps == [] then None
    else if ps[0].Ref? && lookup(ps[0].name).None? then Some(Written(ps[0]))
    else FirstUnset(ps[1..], lookup)
  }

  /** What is complained about is a reference, as it is written, to a name that is not set. */
  lemma {:induction false} UnsetIsNamed(ps: seq<Piece>, lookup: Lookup)
    ensures match FirstUnset(ps, lookup)
            case None => forall k :: 0 <= k < |ps| && ps[k].Ref? ==> lookup(ps[k].name).Some?
            case Some(ref) => exists k :: UnsetAt(ps, lookup, k) && ref == "${" + (ps[k].name + "}")
  {
    if ps != [] && !(ps[0].Ref? && lookup(ps[0].name).None?) {
      UnsetIsNamed(ps[1..], lookup);
      if FirstUnset(ps, lookup).Some? {
        var k :| UnsetAt(ps[1..], lookup, k) && FirstUnset(ps, lookup).value == "${" + (ps[1..][k].name + "}");
        assert UnsetAt(ps, lookup, k + 1);
      }
    } else if ps != [] {
      assert UnsetAt(ps, lookup, 0);
    }
  }

  /** Piece `k` is the first to name something that is not set. */
  ghost predicate UnsetAt(ps: seq<Piece>, lookup: Lookup, k: int) {
    && 0 <= k < |ps| && ps[k].Ref? && lookup(ps[k].name).None?
    && forall j :: 0 <= j < k && ps[j].Ref? ==> lookup(ps[j].name).Some?
  }

  lemma {:induction false} LiteralStays(text: string, rest: string, lookup: Lookup)
    requires NoRefIn(text, rest)
    ensures Replaced(text + rest, lookup) == (text + Replaced(rest, lookup).0, Replaced(rest, lookup).1)
  {
    hide RefLen;
    var s := text + rest;
    if text == "" {
      assert s == rest && text + Replaced(rest, lookup).0 == Replaced(rest, lookup).0;
    } else {
      assert s[1..] == text[1..] + rest;
      assert NoRefIn(text[1..], rest) by { NoRefInTail(text, rest); }
      LiteralStays(text[1..], rest, lookup);
      assert s[0..] == s && RefLen(s[0..]) == 0;
      assert [text[0]] + (text[1..] + Replaced(rest, lookup).0) == text + Replaced(rest, lookup).0;
    }
  }

  lemma NoRefInTail(text: string, rest: string)
    requires text != "" && NoRefIn(text, rest)
    ensures NoRefIn(text[1..], rest)
  {
    hide RefLen;
    forall i | 0 <= i < |text[1..]| ensures RefLen((text[1..] + rest)[i..]) == 0 {
      assert (text[1..] + rest)[i..] == (text + rest)[i + 1..];
    }
  }

  lemma {:induction false} ClosingAt(name: string, rest: string)
    requires '}' !in name
    ensures ClosingBrace(name + ("}" + rest)) == |name|
  {
    var s := name + ("}" + rest);
    if name != "" {
      assert s[1..] == name[1..] + ("}" + rest);
      ClosingAt(name[1..], rest);
    }
  }

  lemma RefIsReplaced(name: string, rest: string, lookup: Lookup)
    requires '}' !in name
    ensures var ref := "${" + (name + "}");
            Replaced(ref + rest, lookup) ==
            (lookup(name).GetOr("") + Replaced(rest, lookup).0,
             if lookup(name).None? then Some(ref) else Replaced(rest, lookup).1)
  {
    var ref := "${" + (name + "}");
    var s := ref + rest;
    assert s[2..] == name + ("}" + rest);
    ClosingAt(name, rest);
    var n := |name| + 3;
    assert s[0] == '$' && s[1] == '{' && s[..2] == "${";
    assert RefLen(s) == n;
    assert s[n..] == rest && s[..n] == ref && s[2..n - 1] == name;
  }

  /** Expansion is substitution, piece by piece, and complains about the first name that is not set. */
  lemma {:induction false} ExpansionIsSubstitution(ps: seq<Piece>, lookup: Lookup)
    requires GoodPieces(ps)
    ensures Replaced(WrittenAll(ps), lookup) == (ValueAll(ps, lookup), FirstUnset(ps, lookup))
  {
    hide Replaced;
    if ps == [] {
      NothingReplaced(lookup);
    } else {
      ExpansionIsSubstitution(ps[1..], lookup);
      match ps[0]
      case Literal(text) => LiteralStays(text, WrittenAll(ps[1..]), lookup);
      case Ref(name) => RefIsReplaced(name, WrittenAll(ps[1..]), lookup);
    }
  }

  lemma NothingReplaced(lookup: Lookup)
    ensures Replaced("", lookup) == ("", None)
  {
  }

  /** The pieces of a line, one character or one reference at a time. */
  function Pieces(line: string): seq<Piece>
    decreases |line|
  {
    if line == "" then []
    else
      var n := RefLen(line);
      if n == 0 then [Literal([line[0]])] + Pieces(line[1..]) else [Ref(line[2..n - 1])] + Pieces(line[n..])
  }

  /** Every line has such pieces, so expansion is substitution for every line. */
  lemma {:induction false} EveryLineHasPieces(line: string)
    ensures WrittenAll(Pieces(line)) == line && GoodPieces(Pieces(line))
    decreases |line|
  {
    if line != "" {
      var ps := Pieces(line);
      var n := RefLen(line);
      if n == 0 {
        EveryLineHasPieces(line[1..]);
        assert ps[1..] == Pieces(line[1..]) && [line[0]] + line[1..] == line && line[0..] == line;
      } else {
        EveryLineHasPieces(line[n..]);
        RefAtFront(line);
        assert ps[1..] == Pieces(line[n..]);
      }
    }
  }

  lemma RefAtFront(line: string)
    requires RefLen(line) > 0
    ensures var n := RefLen(line); '}' !in line[2..n - 1] && Written(Ref(line[2..n - 1])) + line[n..] == line
  {
    var n := RefLen(line);
    var tail := line[2..];
    assert tail[n - 3] == '}' && line[2..n - 1] == tail[..n - 3] && line[n..] == tail[n - 2..];
    Paths.Regroup("${", tail[..n - 3] + "}", tail[n - 2..]);
    Paths.Regroup(tail[..n - 3], "}", tail[n - 2..]);
    assert tail == tail[..n - 3] + ("}" + tail[n - 2..]);
    assert line == "${" + tail;
  }

  /** A line without a complete reference, whatever dollar signs it holds, is left as written. */
  lemma BareDollarsStay(line: string, lookup: Lookup)
    requires NoRefIn(line, "")
    ensures Replaced(line, lookup) == (line, None)
  {
    hide RefLen, NoRefIn;
    LiteralStays(line, "", lookup);
    NothingReplaced(lookup);
    assert line + "" == line;
  }
}

/** Log redaction and rendering (client/slog.go).

  A record goes through `Fanout`, which redacts attribute trees, to every `Bridge`, which flattens them into
  text; groups and attributes may have been attached to both beforehand. The main theorem says what the body
  is for any such chain: the message and one " path=value" per leaf, in order, redacted exactly where the
  pattern matches that path. Values are resolved; the pattern and the quoting of values are parameters. */
module Redaction {
  import opened Domain

  datatype Value = Leaf(text: string) | Group(members: seq<Attr>)

  datatype Attr = Attr(key: string, value: Value)

  datatype Record = Record(message: string, attrs: seq<Attr>)

  type Pattern = string -> bool

  const REDACTED := "[REDACTED]"

  // ----- slog -----

  predicate EmptyGroup(a: Attr) { a.value.Group? && a.value.members == [] }

  /** slog leaves out empty groups when it builds a group or adds attributes to a record. */
  function DropEmpty(attrs: seq<Attr>): seq<Attr> {
    if attrs == [] then []
    else (if EmptyGroup(attrs[0]) then [] else [attrs[0]]) + DropEmpty(attrs[1..])
  }

  function GroupValue(members: seq<Attr>): Value { Group(DropEmpty(members)) }

  // ----- redaction -----

  function Sub(prefix: string, key: string): string { if key != "" then prefix + (key + ".") else prefix }

  function RedactAttr(re: Pattern, prefix: string, a: Attr): Attr
    decreases a
  {
    match a.value
    case Group(members) => Attr(a.key, GroupValue(RedactAll(re, Sub(prefix, a.key), members)))
    case Leaf(_) => if re(prefix + a.key) then Attr(a.key, Leaf(REDACTED)) else a
  }

  function RedactAll(re: Pattern, prefix: string, attrs: seq<Attr>): seq<Attr>
    decreases attrs
  {
    if attrs == [] then [] else [RedactAttr(re, prefix, attrs[0])] + RedactAll(re, prefix, attrs[1..])
  }

  // ----- rendering -----

  predicate NeedsQuotes(s: string) {
    s == "" || ' ' in s || '=' in s || '"' in s || '\n' in s || '\t' in s || '\r' in s
  }

  /** `quote` is strconv.Quote. */
  function RenderValue(quote: string -> string, text: string): string {
    if NeedsQuotes(text) then quote(text) else text
  }

  /** A value is quoted exactly when it is empty or holds one of these characters, so that an unquoted value is one
    word without '='. */
  lemma QuotedIff(quote: string -> string, text: string)
    ensures if text != "" && forall c :: c in text ==> c !in " =\"\n\t\r" then RenderValue(quote, text) == text
            else RenderValue(quote, text) == quote(text)
  {
    forall c | c in text ensures c in " =\"\n\t\r" <==> c in [' ', '=', '"', '\n', '\t', '\r'] {
    }
  }

  function RenderAttr(quote: string -> string, prefix: string, a: Attr): string
    decreases a
  {
    match a.value
    case Group(members) => RenderAll(quote, Sub(prefix, a.key), members)
    case Leaf(text) => " " + (prefix + a.key) + "=" + RenderValue(quote, text)
  }

  function RenderAll(quote: string -> string, prefix: string, attrs: seq<Attr>): string
    decreases attrs
  {
    if attrs == [] then "" else RenderAttr(quote, prefix, attrs[0]) + RenderAll(quote, prefix, attrs[1..])
  }

  /** renderAttr: appends to the builder. */
  method AppendAttr(quote: string -> string, sb: string, prefix: string, a: Attr) returns (out: string)
    ensures out == sb + RenderAttr(quote, prefix, a)
    decreases a
  {
    match a.value {
      case Group(members) =>
        var sub := prefix;
        if a.key != "" {
          sub := sub + (a.key + ".");
        }
        out := sb;
        for i := 0 to |members|
          invariant out == sb + RenderAll(quote, sub, members[..i])
        {
          RenderOneMore(quote, sub, members, i);
          out := AppendAttr(quote, out, sub, members[i]);
        }
        assert members[..|members|] == members;
      case Leaf(text) =>
        out := sb + " ";
        out := out + (prefix + a.key);
        out := out + "=";
        out := out + RenderValue(quote, text);
    }
  }

  lemma {:induction false} RenderJoin(quote: string -> string, prefix: string, a: seq<Attr>, b: seq<Attr>)
    ensures RenderAll(quote, prefix, a + b) == RenderAll(quote, prefix, a) + RenderAll(quote, prefix, b)
  {
    hide RenderAttr;
    if a == [] {
      assert a + b == b;
    } else {
      assert (a + b)[1..] == a[1..] + b;
      RenderJoin(quote, prefix, a[1..], b);
    }
  }

  lemma RenderOneMore(quote: string -> string, prefix: string, attrs: seq<Attr>, i: nat)
    requires i < |attrs|
    ensures RenderAll(quote, prefix, attrs[..i + 1]) ==
            RenderAll(quote, prefix, attrs[..i]) + RenderAttr(quote, prefix, attrs[i])
  {
    hide RenderAttr;
    assert attrs[..i + 1] == attrs[..i] + [attrs[i]];
    RenderJoin(quote, prefix, attrs[..i], [attrs[i]]);
  }

  // ----- the handlers -----

  datatype Bridge = Bridge(prefix: string, attrs: string)

  datatype Fanout = Fanout(sinks: seq<Bridge>, prefix: string)

  const NEW_BRIDGE := Bridge("", "")

  function BridgeWithGroup(b: Bridge, name: string): Bridge {
    if name == "" then b else b.(prefix := b.prefix + (name + "."))
  }

  function BridgeWithAttrs(quote: string -> string, b: Bridge, attrs: seq<Attr>): Bridge {
    b.(attrs := b.attrs + RenderAll(quote, b.prefix, attrs))
  }

  function Body(quote: string -> string, b: Bridge, r: Record): string {
    r.message + b.attrs + RenderAll(quote, b.prefix, r.attrs)
  }

  /** bridge.Handle: the body of the emitted record. */
  method BridgeHandle(quote: string -> string, b: Bridge, r: Record) returns (body: string)
    ensures body == Body(quote, b, r)
  {
    body := r.message + b.attrs;
    for i := 0 to |r.attrs|
      invariant body == r.message + b.attrs + RenderAll(quote, b.prefix, r.attrs[..i])
    {
      RenderOneMore(quote, b.prefix, r.attrs, i);
      body := AppendAttr(quote, body, b.prefix, r.attrs[i]);
    }
    assert r.attrs[..|r.attrs|] == r.attrs;
  }

  function Clean(re: Pattern, f: Fanout, r: Record): Record {
    Record(r.message, DropEmpty(RedactAll(re, f.prefix, r.attrs)))
  }

  datatype Emitted = Emits(body: string) | Silent

  /** The errors of the sinks that took the record, in order. */
  function ErrorsOf(enabled: seq<bool>, answers: nat -> Option<string>, n: nat): seq<string>
    requires n <= |enabled|
  {
    if n == 0 then []
    else
      ErrorsOf(enabled, answers, n - 1) +
      if enabled[n - 1] && answers(n - 1).Some? then [answers(n - 1).value] else []
  }

  /** fanout.Handle: the bodies its sinks emit, and the joined errors. `enabled` tells which sinks take records of this
    level; a sink that fails does not keep the record from the next. */
  method FanoutHandle(re: Pattern, quote: string -> string, f: Fanout, r: Record,
                      enabled: seq<bool>, answers: nat -> Option<string>)
    returns (bodies: seq<Emitted>, errs: seq<string>)
    requires |enabled| == |f.sinks|
    ensures |bodies| == |f.sinks|
    ensures forall k :: 0 <= k < |bodies| ==>
              bodies[k] == if enabled[k] then Emits(Body(quote, f.sinks[k], Clean(re, f, r))) else Silent
    ensures errs == ErrorsOf(enabled, answers, |f.sinks|)
  {
    var clean: seq<Attr> := [];
    for i := 0 to |r.attrs|
      invariant clean == DropEmpty(RedactAll(re, f.prefix, r.attrs[..i]))
    {
      var a := RedactAttr(re, f.prefix, r.attrs[i]);
      RedactOneMore(re, f.prefix, r.attrs, i);
      if !EmptyGroup(a) {
        clean := clean + [a];
      }
    }
    assert r.attrs[..|r.attrs|] == r.attrs;
    bodies, errs := [], [];
    for k := 0 to |f.sinks|
      invariant |bodies| == k && errs == ErrorsOf(enabled, answers, k)
      invariant forall j :: 0 <= j < k ==>
                  bodies[j] == if enabled[j] then Emits(Body(quote, f.sinks[j], Clean(re, f, r))) else Silent
    {
      if enabled[k] {
        var body := BridgeHandle(quote, f.sinks[k], Record(r.message, clean));
        bodies := bodies + [Emits(body)];
        if answers(k).Some? {
          errs := errs + [answers(k).value];
        }
      } else {
        bodies := bodies + [Silent];
      }
    }
  }

  lemma {:induction false} RedactJoin(re: Pattern, prefix: string, a: seq<Attr>, b: seq<Attr>)
    ensures RedactAll(re, prefix, a + b) == RedactAll(re, prefix, a) + RedactAll(re, prefix, b)
  {
    hide RedactAttr;
    if a == [] {
      assert a + b == b;
    } else {
      assert (a + b)[1..] == a[1..] + b;
      RedactJoin(re, prefix, a[1..], b);
    }
  }

  lemma {:induction false} DropJoin(a: seq<Attr>, b: seq<Attr>)
    ensures DropEmpty(a + b) == DropEmpty(a) + DropEmpty(b)
  {
    hide EmptyGroup;
    if a == [] {
      assert a + b == b;
    } else {
      assert (a + b)[1..] == a[1..] + b;
      DropJoin(a[1..], b);
    }
  }

  lemma RedactJustOne(re: Pattern, prefix: string, a: Attr)
    ensures RedactAll(re, prefix, [a]) == [RedactAttr(re, prefix, a)]
    ensures DropEmpty([a]) == if EmptyGroup(a) then [] else [a]
    ensures DropEmpty([RedactAttr(re, prefix, a)]) ==
            if EmptyGroup(RedactAttr(re, prefix, a)) then [] else [RedactAttr(re, prefix, a)]
  {
    hide RedactAttr, EmptyGroup;
    assert RedactAll(re, prefix, [a]) == [RedactAttr(re, prefix, a)] + RedactAll(re, prefix, []);
  }

  lemma RedactOneMore(re: Pattern, prefix: string, attrs: seq<Attr>, i: nat)
    requires i < |attrs|
    ensures var a := RedactAttr(re, prefix, attrs[i]);
            DropEmpty(RedactAll(re, prefix, attrs[..i + 1])) ==
            DropEmpty(RedactAll(re, prefix, attrs[..i])) + if EmptyGroup(a) then [] else [a]
  {
    hide RedactAttr, EmptyGroup;
    RedactJustOne(re, prefix, attrs[i]);
    assert attrs[..i + 1] == attrs[..i] + [attrs[i]];
    RedactJoin(re, prefix, attrs[..i], [attrs[i]]);
    DropJoin(RedactAll(re, prefix, attrs[..i]), [RedactAttr(re, prefix, attrs[i])]);
  }

  function FanoutWithGroup(f: Fanout, name: string): Fanout {
    if name == "" then f
    else
      Fanout(seq(|f.sinks|, k requires 0 <= k < |f.sinks| => BridgeWithGroup(f.sinks[k], name)),
             f.prefix + (name + "."))
  }

  function FanoutWithAttrs(re: Pattern, quote: string -> string, f: Fanout, attrs: seq<Attr>): Fanout {
    var clean := RedactAll(re, f.prefix, attrs);
    f.(sinks := seq(|f.sinks|, k requires 0 <= k < |f.sinks| => BridgeWithAttrs(quote, f.sinks[k], clean)))
  }

  /** What was attached to a logger before it logs. */
  datatype Step = WithGroup(name: string) | WithAttrs(attrs: seq<Attr>)

  function Chain(re: Pattern, quote: string -> string, steps: seq<Step>, sinks: nat): (f: Fanout)
    ensures |f.sinks| == sinks
  {
    if steps == [] then Fanout(seq(sinks, _ => NEW_BRIDGE), "")
    else
      var before := Chain(re, quote, steps[..|steps| - 1], sinks);
      match steps[|steps| - 1]
      case WithGroup(name) => FanoutWithGroup(before, name)
      case WithAttrs(attrs) => FanoutWithAttrs(re, quote, before, attrs)
  }

  // ----- what the body should be -----

  /** One leaf: its dotted path and its text. */
  datatype Field = Field(path: string, text: string)

  function Leaves(prefix: string, a: Attr): seq<Field>
    decreases a
  {
    match a.value
    case Group(members) => AllLeaves(Sub(prefix, a.key), members)
    case Leaf(text) => [Field(prefix + a.key, text)]
  }

  function AllLeaves(prefix: string, attrs: seq<Attr>): seq<Field>
    decreases attrs
  {
    if attrs == [] then [] else Leaves(prefix, attrs[0]) + AllLeaves(prefix, attrs[1..])
  }

  /** The open groups after these steps, each followed by a dot. */
  function Open(steps: seq<Step>): string {
    if steps == [] then ""
    else
      var before := Open(steps[..|steps| - 1]);
      match steps[|steps| - 1]
      case WithGroup(name) => Sub(before, name)
      case WithAttrs(_) => before
  }

  /** Every leaf attached by these steps, under the groups open at the time. */
  function Attached(steps: seq<Step>): seq<Field> {
    if steps == [] then []
    else
      var n := |steps| - 1;
      Attached(steps[..n]) + if steps[n].WithGroup? then [] else AllLeaves(Open(steps[..n]), steps[n].attrs)
  }

  function Hidden(re: Pattern, f: Field): Field { if re(f.path) then Field(f.path, REDACTED) else f }

  function HiddenAll(re: Pattern, fs: seq<Field>): (r: seq<Field>)
    ensures |r| == |fs| && forall i :: 0 <= i < |fs| ==> r[i] == Hidden(re, fs[i])
  {
    seq(|fs|, i requires 0 <= i < |fs| => Hidden(re, fs[i]))
  }

  /** " path=value" for each field. */
  function Text(quote: string -> string, fs: seq<Field>): string {
    if fs == [] then "" else " " + fs[0].path + "=" + RenderValue(quote, fs[0].text) + Text(quote, fs[1..])
  }

  lemma LeavesOfOne(prefix: string, key: string, inner: Attr)
    ensures Leaves(prefix, Attr(key, Group([inner]))) ==
            Leaves(if key == "" then prefix else prefix + key + ".", inner)
  {
    var sub := Sub(prefix, key);
    assert key != "" ==> sub == prefix + key + ".";
    assert AllLeaves(sub, [inner]) == Leaves(sub, inner) + AllLeaves(sub, []);
  }

  /** The path of a leaf is its keys from the outside in, with dots between them; groups without a name add nothing. */
  lemma {:induction false} PathIsDotted(prefix: string, keys: seq<string>, key: string, text: string)
    ensures Leaves(prefix, Nested(keys, key, text)) == [Field(prefix + (Dotted(keys) + key), text)]
    decreases keys
  {
    if keys == [] {
      assert "" + key == key;
    } else {
      hide Leaves, Dotted;
      var sub := if keys[0] == "" then prefix else prefix + keys[0] + ".";
      LeavesOfOne(prefix, keys[0], Nested(keys[1..], key, text));
      PathIsDotted(sub, keys[1..], key, text);
      OneKeyMore(prefix, keys, key);
    }
  }

  lemma OneKeyMore(prefix: string, keys: seq<string>, key: string)
    requires keys != []
    ensures (if keys[0] == "" then prefix else prefix + keys[0] + ".") + (Dotted(keys[1..]) + key) ==
            prefix + (Dotted(keys) + key)
  {
    var rest, first := Dotted(keys[1..]), keys[0] + ".";
    assert Dotted(keys) == if keys[0] == "" then "" + rest else first + rest;
    hide Dotted;
    if keys[0] == "" {
      assert "" + rest == rest;
    } else {
      Regroup(prefix, keys[0], ".");
      Regroup(prefix, first, rest + key);
      Regroup(first, rest, key);
    }
  }

  lemma Regroup(a: string, b: string, c: string)
    ensures (a + b) + c == a + (b + c)
  {
  }

  /** One leaf inside groups with these keys, the first outermost. */
  function Nested(keys: seq<string>, key: string, text: string): Attr {
    if keys == [] then Attr(key, Leaf(text)) else Attr(keys[0], Group([Nested(keys[1..], key, text)]))
  }

  function Dotted(keys: seq<string>): string {
    if keys == [] then "" else (if keys[0] == "" then "" else keys[0] + ".") + Dotted(keys[1..])
  }

  // ----- rendering is the text of the leaves -----

  lemma {:induction false} TextJoin(quote: string -> string, a: seq<Field>, b: seq<Field>)
    ensures Text(quote, a + b) == Text(quote, a) + Text(quote, b)
  {
    hide RenderValue;
    if a == [] {
      assert a + b == b;
    } else {
      assert (a + b)[1..] == a[1..] + b;
      TextJoin(quote, a[1..], b);
      var first := " " + a[0].path + "=" + RenderValue(quote, a[0].text);
      assert first + (Text(quote, a[1..]) + Text(quote, b)) == (first + Text(quote, a[1..])) + Text(quote, b);
    }
  }

  lemma TextOfOne(quote: string -> string, f: Field)
    ensures Text(quote, [f]) == " " + f.path + "=" + RenderValue(quote, f.text)
  {
    assert Text(quote, [f]) == " " + f.path + "=" + RenderValue(quote, f.text) + Text(quote, []);
  }

  /** Flattening an attribute tree renders its leaves in order. */
  lemma {:induction false} RenderIsText(quote: string -> string, prefix: string, a: Attr)
    ensures RenderAttr(quote, prefix, a) == Text(quote, Leaves(prefix, a))
    decreases a
  {
    hide RenderValue, Text;
    match a.value
    case Group(members) => RenderAllIsText(quote, Sub(prefix, a.key), members);
    case Leaf(text) => TextOfOne(quote, Field(prefix + a.key, text));
  }

  lemma {:induction false} RenderAllIsText(quote: string -> string, prefix: string, attrs: seq<Attr>)
    ensures RenderAll(quote, prefix, attrs) == Text(quote, AllLeaves(prefix, attrs))
    decreases attrs
  {
    if attrs != [] {
      hide RenderAttr, Leaves, Text;
      RenderIsText(quote, prefix, attrs[0]);
      RenderAllIsText(quote, prefix, attrs[1..]);
      TextJoin(quote, Leaves(prefix, attrs[0]), AllLeaves(prefix, attrs[1..]));
    }
  }

  // ----- redaction hides the matching leaves -----

  lemma HiddenJoin(re: Pattern, a: seq<Field>, b: seq<Field>)
    ensures HiddenAll(re, a + b) == HiddenAll(re, a) + HiddenAll(re, b)
  {
  }

  lemma {:induction false} EmptyGroupsHaveNoLeaves(prefix: string, attrs: seq<Attr>)
    ensures AllLeaves(prefix, DropEmpty(attrs)) == AllLeaves(prefix, attrs)
  {
    if attrs != [] {
      EmptyGroupsHaveNoLeaves(prefix, attrs[1..]);
      if !EmptyGroup(attrs[0]) {
        assert DropEmpty(attrs)[1..] == DropEmpty(attrs[1..]);
      } else {
        assert Leaves(prefix, attrs[0]) == [];
        assert DropEmpty(attrs) == DropEmpty(attrs[1..]);
      }
    }
  }

  /** What is hidden is replaced whole, by the same text for all. */
  lemma HiddenText(re: Pattern, prefix: string, key: string, text: string)
    ensures Leaves(prefix, RedactAttr(re, prefix, Attr(key, Leaf(text)))) ==
            [Field(prefix + key, if re(prefix + key) then "[REDACTED]" else text)]
  {
  }

  /** Redaction and flattening commute. */
  lemma {:induction false} LeavesOfRedacted(re: Pattern, prefix: string, a: Attr)
    ensures Leaves(prefix, RedactAttr(re, prefix, a)) == HiddenAll(re, Leaves(prefix, a))
    decreases a
  {
    match a.value
    case Group(members) =>
      hide AllLeaves, RedactAll, HiddenAll, DropEmpty;
      var sub := Sub(prefix, a.key);
      AllLeavesOfRedacted(re, sub, members);
      EmptyGroupsHaveNoLeaves(sub, RedactAll(re, sub, members));
    case Leaf(text) =>
  }

  lemma {:induction false} AllLeavesOfRedacted(re: Pattern, prefix: string, attrs: seq<Attr>)
    ensures AllLeaves(prefix, RedactAll(re, prefix, attrs)) == HiddenAll(re, AllLeaves(prefix, attrs))
    decreases attrs
  {
    if attrs != [] {
      hide Leaves, RedactAttr, HiddenAll;
      LeavesOfRedacted(re, prefix, attrs[0]);
      AllLeavesOfRedacted(re, prefix, attrs[1..]);
      HiddenJoin(re, Leaves(prefix, attrs[0]), AllLeaves(prefix, attrs[1..]));
      assert RedactAll(re, prefix, attrs)[1..] == RedactAll(re, prefix, attrs[1..]);
    }
  }

  /** Redacting what is already redacted changes nothing. */
  lemma {:induction false} RedactTwice(re: Pattern, prefix: string, a: Attr)
    ensures RedactAttr(re, prefix, RedactAttr(re, prefix, a)) == RedactAttr(re, prefix, a)
    decreases a
  {
    match a.value
    case Group(members) =>
      hide RedactAll, DropEmpty;
      var sub := Sub(prefix, a.key);
      RedactAllTwice(re, sub, members);
      DropTwice(RedactAll(re, sub, members));
    case Leaf(text) =>
  }

  lemma {:induction false} DropTwice(attrs: seq<Attr>)
    ensures DropEmpty(DropEmpty(attrs)) == DropEmpty(attrs)
  {
    if attrs != [] {
      DropTwice(attrs[1..]);
      if !EmptyGroup(attrs[0]) {
        assert DropEmpty(attrs)[1..] == DropEmpty(attrs[1..]);
      } else {
        assert DropEmpty(attrs) == DropEmpty(attrs[1..]);
      }
    }
  }

  lemma {:induction false} RedactAllTwice(re: Pattern, prefix: string, attrs: seq<Attr>)
    ensures RedactAll(re, prefix, DropEmpty(RedactAll(re, prefix, attrs))) == DropEmpty(RedactAll(re, prefix, attrs))
    decreases attrs
  {
    if attrs != [] {
      hide RedactAttr, EmptyGroup;
      RedactTwice(re, prefix, attrs[0]);
      RedactAllTwice(re, prefix, attrs[1..]);
      var first, rest := RedactAttr(re, prefix, attrs[0]), RedactAll(re, prefix, attrs[1..]);
      assert RedactAll(re, prefix, attrs) == [first] + rest;
      assert ([first] + rest)[1..] == rest;
      if EmptyGroup(first) {
        assert DropEmpty([first] + rest) == DropEmpty(rest);
      } else {
        var kept := DropEmpty([first] + rest);
        assert kept == [first] + DropEmpty(rest) && kept[1..] == DropEmpty(rest);
      }
    }
  }

  // ----- the whole chain -----

  lemma {:induction false} ChainState(re: Pattern, quote: string -> string, steps: seq<Step>, sinks: nat, k: nat)
    requires k < sinks
    ensures var f := Chain(re, quote, steps, sinks);
            && f.prefix == Open(steps) == f.sinks[k].prefix
            && f.sinks[k].attrs == Text(quote, HiddenAll(re, Attached(steps)))
  {
    hide HiddenAll, RenderAll, RedactAll, AllLeaves;
    if steps == [] {
      NothingAttached(re, quote);
    } else {
      hide Text;
      var n := |steps| - 1;
      ChainState(re, quote, steps[..n], sinks, k);
      match steps[n]
      case WithGroup(name) =>
        assert Attached(steps) == Attached(steps[..n]);
      case WithAttrs(attrs) =>
        var open := Open(steps[..n]);
        RenderAllIsText(quote, open, RedactAll(re, open, attrs));
        AllLeavesOfRedacted(re, open, attrs);
        HiddenJoin(re, Attached(steps[..n]), AllLeaves(open, attrs));
        TextJoin(quote, HiddenAll(re, Attached(steps[..n])), HiddenAll(re, AllLeaves(open, attrs)));
    }
  }

  lemma NothingAttached(re: Pattern, quote: string -> string)
    ensures Text(quote, HiddenAll(re, [])) == ""
  {
  }

  /** For every chain of groups and attributes, and every record, each sink's body is the message followed by the
    text of all leaves in order, each redacted exactly when the pattern matches its dotted path. */
  lemma BodyIsRedactedText(re: Pattern, quote: string -> string, steps: seq<Step>, sinks: nat, r: Record, k: nat)
    requires k < sinks
    ensures var f := Chain(re, quote, steps, sinks);
            Body(quote, f.sinks[k], Clean(re, f, r)) ==
            r.message + Text(quote, HiddenAll(re, Attached(steps) + AllLeaves(Open(steps), r.attrs)))
  {
    hide HiddenAll, RenderAll, RedactAll, AllLeaves, Text, Chain, Attached, Open, DropEmpty;
    var open := Open(steps);
    ChainState(re, quote, steps, sinks, k);
    var clean := RedactAll(re, open, r.attrs);
    EmptyGroupsHaveNoLeaves(open, clean);
    RenderAllIsText(quote, open, DropEmpty(clean));
    AllLeavesOfRedacted(re, open, r.attrs);
    HiddenJoin(re, Attached(steps), AllLeaves(open, r.attrs));
    TextJoin(quote, HiddenAll(re, Attached(steps)), HiddenAll(re, AllLeaves(open, r.attrs)));
  }

  /** Same paths, and the same text wherever the pattern does not match. */
  ghost predicate DifferOnlyInSecrets(re: Pattern, a: seq<Field>, b: seq<Field>) {
    |a| == |b| && forall i :: 0 <= i < |a| ==> a[i].path == b[i].path && (re(a[i].path) || a[i].text == b[i].text)
  }

  /** Nothing of a redacted value reaches the body: change the secrets, attached or logged, and it stays the same. */
  lemma SecretsDoNotShow(re: Pattern, quote: string -> string, steps: seq<Step>, r: Record,
                         steps': seq<Step>, r': Record, sinks: nat, k: nat)
    requires k < sinks && r.message == r'.message
    requires DifferOnlyInSecrets(re, Attached(steps) + AllLeaves(Open(steps), r.attrs),
                                 Attached(steps') + AllLeaves(Open(steps'), r'.attrs))
    ensures var f, f' := Chain(re, quote, steps, sinks), Chain(re, quote, steps', sinks);
            Body(quote, f.sinks[k], Clean(re, f, r)) == Body(quote, f'.sinks[k], Clean(re, f', r'))
  {
    hide Chain, Clean, Body, Text, AllLeaves, Attached, Open;
    BodyIsRedactedText(re, quote, steps, sinks, r, k);
    BodyIsRedactedText(re, quote, steps', sinks, r', k);
    assert HiddenAll(re, Attached(steps) + AllLeaves(Open(steps), r.attrs))
        == HiddenAll(re, Attached(steps') + AllLeaves(Open(steps'), r'.attrs));
  }
}

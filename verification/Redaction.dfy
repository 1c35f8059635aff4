/**
The redacting log handler. Attributes form trees; a value may be lazy, to be resolved before it
is written. Masking is by key, case-insensitively: `lower` stands for strings.ToLower and may be
any function.
*/
module Redaction {
  datatype Attr = Attr(key: string, value: Value)
  datatype Value = Leaf(text: string) | Group(attrs: seq<Attr>) | Lazy(inner: Value)

  const MASK := Leaf("[redacted]")

  /** slog.Value.Resolve gives up after this many LogValue calls. */
  const MAX_LOG_VALUES: nat := 100
  const TOO_MANY := Leaf("LogValue called too many times")

  /** The registered keys, already lowered, and the lowering they went through. */
  datatype Keys = Keys(lower: string -> string, sensitive: set<string>)

  predicate Sensitive(k: Keys, key: string) {
    k.lower(key) in k.sensitive
  }

  predicate EmptyGroup(v: Value) {
    v.Group? && v.attrs == []
  }

  /** slog.GroupValue and Record.AddAttrs leave out attributes whose value is an empty group. */
  function DropEmpty(attrs: seq<Attr>): seq<Attr> {
    if attrs == [] then []
    else if EmptyGroup(attrs[0].value) then DropEmpty(attrs[1..])
    else [attrs[0]] + DropEmpty(attrs[1..])
  }

  function Redact(k: Keys, a: Attr): Attr
    decreases a, 1
  {
    if Sensitive(k, a.key) then Attr(a.key, MASK) else Attr(a.key, RedactValue(k, a.value, MAX_LOG_VALUES))
  }

  /** Resolve the value with `calls` LogValue calls left, then walk the group it may be. */
  function RedactValue(k: Keys, v: Value, calls: nat): Value
    decreases v, 0
  {
    if calls == 0 then TOO_MANY
    else
      match v
      case Leaf(_) => v
      case Lazy(inner) => RedactValue(k, inner, calls - 1)
      case Group(attrs) => Group(DropEmpty(RedactAll(k, attrs)))
  }

  function RedactAll(k: Keys, attrs: seq<Attr>): (r: seq<Attr>)
    ensures |r| == |attrs| && forall i :: 0 <= i < |r| ==> r[i] == Redact(k, attrs[i])
    decreases attrs, 0
  {
    if attrs == [] then [] else [Redact(k, attrs[0])] + RedactAll(k, attrs[1..])
  }

  // ----- What reaches the sink, leaf by leaf -----

  /** A leaf with the keys that lead to it. */
  datatype Entry = Entry(path: seq<string>, text: string)

  /** The leaves of a tree as a sink prints them; a lazy value would print whatever it resolves to. */
  function Printed(path: seq<string>, a: Attr): seq<Entry>
    decreases a, 1
  {
    PrintedValue(path + [a.key], a.value)
  }

  function PrintedValue(path: seq<string>, v: Value): seq<Entry>
    decreases v, 0
  {
    match v
    case Leaf(t) => [Entry(path, t)]
    case Lazy(inner) => PrintedValue(path, inner)
    case Group(attrs) => PrintedAll(path, attrs)
  }

  function PrintedAll(path: seq<string>, attrs: seq<Attr>): seq<Entry>
    decreases attrs, 0
  {
    if attrs == [] then [] else Printed(path, attrs[0]) + PrintedAll(path, attrs[1..])
  }

  /** The reference: every leaf in order, with everything below a sensitive key turned into one masked leaf. */
  function Expected(k: Keys, path: seq<string>, a: Attr): seq<Entry>
    decreases a, 1
  {
    if Sensitive(k, a.key) then [Entry(path + [a.key], MASK.text)]
    else ExpectedValue(k, path + [a.key], a.value, MAX_LOG_VALUES)
  }

  function ExpectedValue(k: Keys, path: seq<string>, v: Value, calls: nat): seq<Entry>
    decreases v, 0
  {
    if calls == 0 then [Entry(path, TOO_MANY.text)]
    else
      match v
      case Leaf(t) => [Entry(path, t)]
      case Lazy(inner) => ExpectedValue(k, path, inner, calls - 1)
      case Group(attrs) => ExpectedAll(k, path, attrs)
  }

  function ExpectedAll(k: Keys, path: seq<string>, attrs: seq<Attr>): seq<Entry>
    decreases attrs, 0
  {
    if attrs == [] then [] else Expected(k, path, attrs[0]) + ExpectedAll(k, path, attrs[1..])
  }

  lemma {:induction false} DropEmptyPrintsSame(path: seq<string>, attrs: seq<Attr>)
    ensures PrintedAll(path, DropEmpty(attrs)) == PrintedAll(path, attrs)
  {
    if attrs != [] {
      DropEmptyPrintsSame(path, attrs[1..]);
      if EmptyGroup(attrs[0].value) {
        assert attrs[0].value == Group([]) && PrintedAll(path + [attrs[0].key], []) == [];
        assert Printed(path, attrs[0]) == [];
        assert [] + PrintedAll(path, attrs[1..]) == PrintedAll(path, attrs[1..]);
      } else {
        assert ([attrs[0]] + DropEmpty(attrs[1..]))[1..] == DropEmpty(attrs[1..]);
      }
    }
  }

  /** Redaction prints exactly the reference: nothing leaks, nothing else is lost, order is kept. */
  lemma {:induction false} RedactPrintsExpected(k: Keys, path: seq<string>, a: Attr)
    ensures Printed(path, Redact(k, a)) == Expected(k, path, a)
    decreases a, 1
  {
    if !Sensitive(k, a.key) {
      RedactValuePrintsExpected(k, path + [a.key], a.value, MAX_LOG_VALUES);
    }
  }

  lemma {:induction false} RedactValuePrintsExpected(k: Keys, path: seq<string>, v: Value, calls: nat)
    ensures PrintedValue(path, RedactValue(k, v, calls)) == ExpectedValue(k, path, v, calls)
    decreases v, 0
  {
    if calls > 0 {
      match v
      case Leaf(_) =>
      case Lazy(inner) => RedactValuePrintsExpected(k, path, inner, calls - 1);
      case Group(attrs) =>
        RedactAllPrintsExpected(k, path, attrs);
        DropEmptyPrintsSame(path, RedactAll(k, attrs));
    }
  }

  lemma {:induction false} RedactAllPrintsExpected(k: Keys, path: seq<string>, attrs: seq<Attr>)
    ensures PrintedAll(path, RedactAll(k, attrs)) == ExpectedAll(k, path, attrs)
    decreases attrs, 0
  {
    if attrs != [] {
      RedactPrintsExpected(k, path, attrs[0]);
      RedactAllPrintsExpected(k, path, attrs[1..]);
      assert RedactAll(k, attrs)[1..] == RedactAll(k, attrs[1..]);
    }
  }

  /** Case does not matter: an attribute is masked if its key and a registered one have the same lower form. */
  lemma SameLowerIsMasked(k: Keys, a: Attr, registered: string)
    requires k.lower(registered) in k.sensitive && k.lower(a.key) == k.lower(registered)
    ensures Redact(k, a) == Attr(a.key, Leaf("[redacted]"))
  {
  }

  /** And only then. */
  lemma OtherKeysAreKept(k: Keys, key: string, text: string)
    requires forall x :: x in k.sensitive ==> k.lower(key) != x
    ensures Redact(k, Attr(key, Leaf(text))) == Attr(key, Leaf(text))
  {
  }

  /** A value that needs n LogValue calls. */
  function Wrapped(v: Value, n: nat): Value {
    if n == 0 then v else Lazy(Wrapped(v, n - 1))
  }

  lemma {:induction false} ResolvesWithin(k: Keys, text: string, n: nat, calls: nat)
    ensures RedactValue(k, Wrapped(Leaf(text), n), calls) == if n < calls then Leaf(text) else TOO_MANY
    decreases n
  {
    if n > 0 && calls > 0 {
      ResolvesWithin(k, text, n - 1, calls - 1);
    }
  }

  /** A lazy value is resolved if it needs fewer than a hundred calls, and replaced by a complaint otherwise. */
  lemma LazyLimit(k: Keys, key: string, text: string, n: nat)
    requires !Sensitive(k, key)
    ensures Redact(k, Attr(key, Wrapped(Leaf(text), n))) == Attr(key, if n < 100 then Leaf(text) else TOO_MANY)
  {
    ResolvesWithin(k, text, n, MAX_LOG_VALUES);
  }

  // ----- The same, path by path -----

  /** None of the keys on the path is sensitive. */
  predicate Clean(k: Keys, path: seq<string>) {
    forall i :: 0 <= i < |path| ==> !Sensitive(k, path[i])
  }

  /** The entries without a sensitive key on their path, in order. */
  function CleanOnly(k: Keys, es: seq<Entry>): seq<Entry> {
    if es == [] then []
    else (if Clean(k, es[0].path) then [es[0]] else []) + CleanOnly(k, es[1..])
  }

  /** A handler with nothing registered. */
  function Unkeyed(k: Keys): Keys {
    k.(sensitive := {})
  }

  /** A masked leaf, right at the first sensitive key of its path. */
  predicate MaskedAt(k: Keys, e: Entry) {
    e.text == "[redacted]" && e.path != [] && Clean(k, e.path[..|e.path| - 1])
  }

  /** `out` keeps all leaves of `raw` without a sensitive key on their path, and masks everything else it has. */
  ghost predicate MaskedByPath(k: Keys, raw: seq<Entry>, out: seq<Entry>) {
    && CleanOnly(k, out) == CleanOnly(k, raw)
    && forall e :: e in out ==> Clean(k, e.path) || MaskedAt(k, e)
  }

  lemma {:induction false} CleanOnlyConcat(k: Keys, xs: seq<Entry>, ys: seq<Entry>)
    ensures CleanOnly(k, xs + ys) == CleanOnly(k, xs) + CleanOnly(k, ys)
  {
    hide Clean;
    if xs == [] {
      assert xs + ys == ys;
    } else {
      CleanOnlyConcat(k, xs[1..], ys);
      assert (xs + ys)[1..] == xs[1..] + ys;
    }
  }

  lemma CleanExtend(k: Keys, path: seq<string>, key: string)
    ensures Clean(k, path + [key]) <==> Clean(k, path) && !Sensitive(k, key)
  {
    if Clean(k, path + [key]) {
      assert (path + [key])[|path|] == key;
      assert forall i :: 0 <= i < |path| ==> (path + [key])[i] == path[i];
    }
  }

  /** Below a sensitive key no leaf has a clean path. */
  lemma {:induction false} DirtyBelow(k: Keys, path: seq<string>, v: Value, calls: nat)
    requires !Clean(k, path)
    ensures CleanOnly(k, ExpectedValue(Unkeyed(k), path, v, calls)) == []
    decreases v, 0
  {
    if calls > 0 {
      match v
      case Leaf(_) =>
      case Lazy(inner) => DirtyBelow(k, path, inner, calls - 1);
      case Group(attrs) => DirtyBelowAll(k, path, attrs);
    }
  }

  lemma {:induction false} DirtyBelowAll(k: Keys, path: seq<string>, attrs: seq<Attr>)
    requires !Clean(k, path)
    ensures CleanOnly(k, ExpectedAll(Unkeyed(k), path, attrs)) == []
    decreases attrs, 0
  {
    if attrs != [] {
      CleanExtend(k, path, attrs[0].key);
      DirtyBelow(k, path + [attrs[0].key], attrs[0].value, MAX_LOG_VALUES);
      DirtyBelowAll(k, path, attrs[1..]);
      CleanOnlyConcat(k, Expected(Unkeyed(k), path, attrs[0]), ExpectedAll(Unkeyed(k), path, attrs[1..]));
    }
  }

  lemma {:induction false} ExpectedByPath(k: Keys, path: seq<string>, a: Attr)
    requires Clean(k, path)
    ensures MaskedByPath(k, Expected(Unkeyed(k), path, a), Expected(k, path, a))
    decreases a, 1
  {
    CleanExtend(k, path, a.key);
    if Sensitive(k, a.key) {
      DirtyBelow(k, path + [a.key], a.value, MAX_LOG_VALUES);
      assert (path + [a.key])[..|path|] == path;
    } else {
      ExpectedValueByPath(k, path + [a.key], a.value, MAX_LOG_VALUES);
    }
  }

  lemma {:induction false} ExpectedValueByPath(k: Keys, path: seq<string>, v: Value, calls: nat)
    requires Clean(k, path)
    ensures MaskedByPath(k, ExpectedValue(Unkeyed(k), path, v, calls), ExpectedValue(k, path, v, calls))
    decreases v, 0
  {
    if calls > 0 {
      match v
      case Leaf(_) =>
      case Lazy(inner) => ExpectedValueByPath(k, path, inner, calls - 1);
      case Group(attrs) => ExpectedAllByPath(k, path, attrs);
    }
  }

  lemma {:induction false} ExpectedAllByPath(k: Keys, path: seq<string>, attrs: seq<Attr>)
    requires Clean(k, path)
    ensures MaskedByPath(k, ExpectedAll(Unkeyed(k), path, attrs), ExpectedAll(k, path, attrs))
    decreases attrs, 0
  {
    if attrs != [] {
      ExpectedByPath(k, path, attrs[0]);
      ExpectedAllByPath(k, path, attrs[1..]);
      CleanOnlyConcat(k, Expected(k, path, attrs[0]), ExpectedAll(k, path, attrs[1..]));
      CleanOnlyConcat(k, Expected(Unkeyed(k), path, attrs[0]), ExpectedAll(Unkeyed(k), path, attrs[1..]));
    }
  }

  /**
  Path by path: of what an unkeyed handler prints, redaction keeps in order exactly the leaves
  with no sensitive key on their path, and whatever else it prints is a mask right at the first
  sensitive key.
  */
  lemma RedactMasksByPath(k: Keys, a: Attr)
    ensures MaskedByPath(k, Printed([], Redact(Unkeyed(k), a)), Printed([], Redact(k, a)))
  {
    RedactPrintsExpected(k, [], a);
    RedactPrintsExpected(Unkeyed(k), [], a);
    ExpectedByPath(k, [], a);
  }

  // ----- No sensitive key unmasked at any depth, and idempotence -----

  /** Fully resolved, every sensitive key masked, no empty group inside a group. */
  predicate Settled(k: Keys, a: Attr)
    decreases a, 1
  {
    if Sensitive(k, a.key) then a.value == MASK else SettledValue(k, a.value)
  }

  predicate SettledValue(k: Keys, v: Value)
    decreases v, 0
  {
    match v
    case Leaf(_) => true
    case Lazy(_) => false
    case Group(attrs) =>
      forall i :: 0 <= i < |attrs| ==> Settled(k, attrs[i]) && !EmptyGroup(attrs[i].value)
  }

  lemma {:induction false} DropEmptyKeeps(attrs: seq<Attr>, i: nat)
    requires i < |DropEmpty(attrs)|
    ensures DropEmpty(attrs)[i] in attrs && !EmptyGroup(DropEmpty(attrs)[i].value)
  {
    if EmptyGroup(attrs[0].value) {
      DropEmptyKeeps(attrs[1..], i);
    } else if i > 0 {
      DropEmptyKeeps(attrs[1..], i - 1);
    }
  }

  lemma {:induction false} DropEmptyNothing(attrs: seq<Attr>)
    requires forall i :: 0 <= i < |attrs| ==> !EmptyGroup(attrs[i].value)
    ensures DropEmpty(attrs) == attrs
  {
    if attrs != [] {
      DropEmptyNothing(attrs[1..]);
    }
  }

  /** No attribute at any depth whose key is sensitive comes out unmasked. */
  lemma {:induction false} RedactSettles(k: Keys, a: Attr)
    ensures Settled(k, Redact(k, a))
    decreases a, 1
  {
    if !Sensitive(k, a.key) {
      RedactValueSettles(k, a.value, MAX_LOG_VALUES);
    }
  }

  lemma {:induction false} RedactValueSettles(k: Keys, v: Value, calls: nat)
    ensures SettledValue(k, RedactValue(k, v, calls))
    decreases v, 0
  {
    if calls > 0 {
      match v
      case Leaf(_) =>
      case Lazy(inner) => RedactValueSettles(k, inner, calls - 1);
      case Group(attrs) =>
        var r := RedactAll(k, attrs);
        forall i | 0 <= i < |DropEmpty(r)|
          ensures Settled(k, DropEmpty(r)[i]) && !EmptyGroup(DropEmpty(r)[i].value)
        {
          DropEmptyKeeps(r, i);
          var j :| 0 <= j < |r| && r[j] == DropEmpty(r)[i];
          RedactSettles(k, attrs[j]);
        }
    }
  }

  /** Settled attributes pass through unchanged. */
  lemma {:induction false} SettledIsFixed(k: Keys, a: Attr)
    requires Settled(k, a)
    ensures Redact(k, a) == a
    decreases a
  {
    if !Sensitive(k, a.key) && a.value.Group? {
      var attrs := a.value.attrs;
      forall i | 0 <= i < |attrs| ensures Redact(k, attrs[i]) == attrs[i] {
        SettledIsFixed(k, attrs[i]);
      }
      assert RedactAll(k, attrs) == attrs;
      DropEmptyNothing(attrs);
    }
  }

  lemma RedactIdempotent(k: Keys, a: Attr)
    ensures Redact(k, Redact(k, a)) == Redact(k, a)
  {
    RedactSettles(k, a);
    SettledIsFixed(k, Redact(k, a));
  }

  // ----- The handler -----

  /** What the wrapped handler has been told so far. */
  datatype Bound = Bind(attrs: seq<Attr>) | Open(group: string)

  /** A map of registered keys: an object that handlers refer to. */
  class KeyMap {
    var keys: set<string>

    constructor ()
      ensures keys == {}
    {
      keys := {};
    }

    method Add(key: string)
      modifies this
      ensures keys == old(keys) + {key}
    {
      keys := keys + {key};
    }
  }

  class Handler {
    const lower: string -> string
    const next: seq<Bound>
    const sensitive: KeyMap

    ghost function CurrentKeys(): Keys
      reads sensitive
    {
      Keys(lower, sensitive.keys)
    }

    /** newRedactingHandler: a handler with a new, empty map. */
    constructor (lower: string -> string, next: seq<Bound>)
      ensures this.lower == lower && this.next == next
      ensures fresh(sensitive) && sensitive.keys == {}
    {
      this.lower := lower;
      this.next := next;
      sensitive := new KeyMap();
    }

    method RegisterSensitive(keys: seq<string>)
      modifies sensitive
      ensures sensitive.keys == old(sensitive.keys) + set i | 0 <= i < |keys| :: lower(keys[i])
    {
      var i := 0;
      while i < |keys|
        invariant 0 <= i <= |keys|
        invariant sensitive.keys == old(sensitive.keys) + set j | 0 <= j < i :: lower(keys[j])
      {
        sensitive.Add(lower(keys[i]));
        i := i + 1;
      }
    }

    /** redact, attribute by attribute, into a new slice. */
    method RedactEach(attrs: seq<Attr>) returns (redacted: seq<Attr>)
      ensures redacted == RedactAll(CurrentKeys(), attrs)
    {
      redacted := [];
      for i := 0 to |attrs|
        invariant |redacted| == i && forall j :: 0 <= j < i ==> redacted[j] == Redact(CurrentKeys(), attrs[j])
      {
        redacted := redacted + [Redact(Keys(lower, sensitive.keys), attrs[i])];
      }
    }

    /** The record handed to the wrapped handler. */
    method Handle(attrs: seq<Attr>) returns (record: seq<Attr>)
      ensures record == DropEmpty(RedactAll(CurrentKeys(), attrs))
      ensures PrintedAll([], record) == ExpectedAll(CurrentKeys(), [], attrs)
      ensures MaskedByPath(CurrentKeys(), ExpectedAll(Unkeyed(CurrentKeys()), [], attrs), PrintedAll([], record))
      ensures forall i :: 0 <= i < |record| ==> Settled(CurrentKeys(), record[i])
    {
      var redacted := RedactEach(attrs);
      record := DropEmpty(redacted);
      RecordSafe(CurrentKeys(), attrs);
    }

    /** A child over `next`, into whose own map the keys are copied one by one. */
    method Derive(next: seq<Bound>) returns (child: Handler)
      ensures fresh(child) && fresh(child.sensitive)
      ensures child.lower == lower && child.next == next && child.sensitive.keys == sensitive.keys
    {
      child := new Handler(lower, next);
      var todo := sensitive.keys;
      while todo != {}
        invariant todo <= sensitive.keys == old(sensitive.keys)
        invariant child.sensitive.keys == sensitive.keys - todo
        decreases todo
      {
        var key :| key in todo;
        child.sensitive.Add(key);
        todo := todo - {key};
      }
    }

    method WithAttrs(attrs: seq<Attr>) returns (child: Handler)
      ensures fresh(child) && fresh(child.sensitive)
      ensures child.lower == lower && child.sensitive.keys == sensitive.keys
      ensures child.next == next + [Bind(RedactAll(CurrentKeys(), attrs))]
    {
      var redacted := RedactEach(attrs);
      child := Derive(next + [Bind(redacted)]);
    }

    method WithGroup(name: string) returns (child: Handler)
      ensures fresh(child) && fresh(child.sensitive)
      ensures child.lower == lower && child.sensitive.keys == sensitive.keys
      ensures child.next == next + [Open(name)]
    {
      child := Derive(next + [Open(name)]);
    }
  }

  // ----- Families of derived handlers over whole runs -----

  /** An attribute bound by WithAttrs: the original, what the sink got, and the keys registered then. */
  datatype Piece = Piece(original: Attr, bound: Attr, at: set<string>)

  /** A handler as a value: its registered keys and everything bound along its derivation. */
  datatype Member = Member(sensitive: set<string>, pieces: seq<Piece>)

  /** One record in the sink: the pieces in front of it, its own attributes, and the keys registered then. */
  datatype Line = Line(pieces: seq<Piece>, original: seq<Attr>, record: seq<Attr>, at: set<string>)

  datatype Family = Family(members: seq<Member>, sink: seq<Line>)

  datatype Call =
    | RegisterKeys(h: nat, keys: seq<string>)
    | DeriveAttrs(h: nat, attrs: seq<Attr>)
    | DeriveGroup(h: nat, name: string)
    | Log(h: nat, attrs: seq<Attr>)

  function BindAll(k: Keys, attrs: seq<Attr>): (r: seq<Piece>)
    ensures |r| == |attrs|
    ensures forall i :: 0 <= i < |r| ==> r[i] == Piece(attrs[i], Redact(k, attrs[i]), k.sensitive)
  {
    seq(|attrs|, i requires 0 <= i < |attrs| => Piece(attrs[i], Redact(k, attrs[i]), k.sensitive))
  }

  function Perform(lower: string -> string, f: Family, c: Call): Family
    requires c.h < |f.members|
  {
    var m := f.members[c.h];
    var k := Keys(lower, m.sensitive);
    match c
    case RegisterKeys(h, keys) =>
      f.(members := f.members[h := m.(sensitive := m.sensitive + set i | 0 <= i < |keys| :: lower(keys[i]))])
    case DeriveAttrs(_, attrs) =>
      f.(members := f.members + [Member(m.sensitive, m.pieces + BindAll(k, attrs))])
    case DeriveGroup(_, _) => f.(members := f.members + [m])
    case Log(_, attrs) =>
      f.(sink := f.sink + [Line(m.pieces, attrs, DropEmpty(RedactAll(k, attrs)), m.sensitive)])
  }

  /** The piece prints its original with everything below a key registered at that time masked. */
  ghost predicate PieceSafe(lower: string -> string, p: Piece) {
    && Settled(Keys(lower, p.at), p.bound)
    && Printed([], p.bound) == Expected(Keys(lower, p.at), [], p.original)
    && MaskedByPath(Keys(lower, p.at), Expected(Keys(lower, {}), [], p.original), Printed([], p.bound))
  }

  ghost predicate PiecesSafe(lower: string -> string, pieces: seq<Piece>, now: set<string>) {
    forall i :: 0 <= i < |pieces| ==> PieceSafe(lower, pieces[i]) && pieces[i].at <= now
  }

  ghost predicate LineSafe(lower: string -> string, l: Line) {
    && PiecesSafe(lower, l.pieces, l.at)
    && (forall i :: 0 <= i < |l.record| ==> Settled(Keys(lower, l.at), l.record[i]))
    && PrintedAll([], l.record) == ExpectedAll(Keys(lower, l.at), [], l.original)
    && MaskedByPath(Keys(lower, l.at), ExpectedAll(Keys(lower, {}), [], l.original), PrintedAll([], l.record))
  }

  ghost predicate FamilySafe(lower: string -> string, f: Family) {
    && (forall h :: 0 <= h < |f.members| ==> PiecesSafe(lower, f.members[h].pieces, f.members[h].sensitive))
    && (forall i :: 0 <= i < |f.sink| ==> LineSafe(lower, f.sink[i]))
  }

  lemma BindAllSafe(lower: string -> string, sensitive: set<string>, attrs: seq<Attr>)
    ensures PiecesSafe(lower, BindAll(Keys(lower, sensitive), attrs), sensitive)
  {
    var k := Keys(lower, sensitive);
    forall i | 0 <= i < |attrs| ensures PieceSafe(lower, BindAll(k, attrs)[i]) {
      RedactSettles(k, attrs[i]);
      RedactPrintsExpected(k, [], attrs[i]);
      ExpectedByPath(k, [], attrs[i]);
    }
  }

  lemma RecordSafe(k: Keys, attrs: seq<Attr>)
    ensures PrintedAll([], DropEmpty(RedactAll(k, attrs))) == ExpectedAll(k, [], attrs)
    ensures MaskedByPath(k, ExpectedAll(Unkeyed(k), [], attrs), ExpectedAll(k, [], attrs))
    ensures forall i :: 0 <= i < |DropEmpty(RedactAll(k, attrs))| ==> Settled(k, DropEmpty(RedactAll(k, attrs))[i])
  {
    var r := RedactAll(k, attrs);
    RedactAllPrintsExpected(k, [], attrs);
    ExpectedAllByPath(k, [], attrs);
    DropEmptyPrintsSame([], r);
    forall i | 0 <= i < |DropEmpty(r)| ensures Settled(k, DropEmpty(r)[i]) {
      DropEmptyKeeps(r, i);
      var j :| 0 <= j < |r| && r[j] == DropEmpty(r)[i];
      RedactSettles(k, attrs[j]);
    }
  }

  lemma CallKeepsSafe(lower: string -> string, f: Family, c: Call)
    requires FamilySafe(lower, f) && c.h < |f.members|
    ensures FamilySafe(lower, Perform(lower, f, c))
  {
    var m := f.members[c.h];
    match c
    case RegisterKeys(_, _) => hide PieceSafe, LineSafe;
    case DeriveAttrs(_, attrs) =>
      BindAllSafe(lower, m.sensitive, attrs);
      hide PieceSafe, LineSafe, BindAll;
    case DeriveGroup(_, _) => hide PieceSafe, LineSafe;
    case Log(_, attrs) =>
      RecordSafe(Keys(lower, m.sensitive), attrs);
      hide PieceSafe, DropEmpty, RedactAll;
  }

  ghost predicate ValidCalls(lower: string -> string, f: Family, cs: seq<Call>)
    decreases |cs|
  {
    cs == [] || (cs[0].h < |f.members| && ValidCalls(lower, Perform(lower, f, cs[0]), cs[1..]))
  }

  ghost function AfterCalls(lower: string -> string, f: Family, cs: seq<Call>): Family
    requires ValidCalls(lower, f, cs)
    decreases |cs|
  {
    if cs == [] then f else AfterCalls(lower, Perform(lower, f, cs[0]), cs[1..])
  }

  lemma {:induction false} CallsKeepSafe(lower: string -> string, f: Family, cs: seq<Call>)
    requires FamilySafe(lower, f) && ValidCalls(lower, f, cs)
    ensures FamilySafe(lower, AfterCalls(lower, f, cs))
    decreases |cs|
  {
    if cs != [] {
      CallKeepsSafe(lower, f, cs[0]);
      hide FamilySafe, Perform;
      CallsKeepSafe(lower, Perform(lower, f, cs[0]), cs[1..]);
    }
  }

  /** A new handler, with nothing registered, derived or logged. */
  function NewFamily(): Family {
    Family([Member({}, [])], [])
  }

  /**
  For every sequence of registrations, derivations and log calls on a new handler and its
  descendants, every record in the sink is safe: each piece is masked for the keys registered
  when it was bound, the record for those registered when it was logged.
  */
  lemma EverythingIsMasked(lower: string -> string, cs: seq<Call>)
    requires ValidCalls(lower, NewFamily(), cs)
    ensures FamilySafe(lower, AfterCalls(lower, NewFamily(), cs))
  {
    CallsKeepSafe(lower, NewFamily(), cs);
  }

  /** A handler as a value changes only by calls on itself. */
  lemma {:induction false} OthersCallsStayLocal(lower: string -> string, f: Family, cs: seq<Call>, g: nat)
    requires ValidCalls(lower, f, cs) && g < |f.members|
    requires forall i :: 0 <= i < |cs| ==> cs[i].h != g
    ensures g < |AfterCalls(lower, f, cs).members| && AfterCalls(lower, f, cs).members[g] == f.members[g]
    decreases |cs|
  {
    if cs != [] {
      assert Perform(lower, f, cs[0]).members[g] == f.members[g];
      OthersCallsStayLocal(lower, Perform(lower, f, cs[0]), cs[1..], g);
    }
  }

  // ----- The handlers on the heap do what the values do -----

  /** No two handlers refer to the same map. */
  ghost predicate OwnMaps(hs: seq<Handler>) {
    forall i, j :: 0 <= i < j < |hs| ==> hs[i].sensitive != hs[j].sensitive
  }

  ghost function MapsOf(hs: seq<Handler>): set<KeyMap> {
    set i | 0 <= i < |hs| :: hs[i].sensitive
  }

  /** Everything bound, in order. */
  function BoundAttrs(next: seq<Bound>): seq<Attr> {
    if next == [] then []
    else BoundAttrs(next[..|next| - 1]) + match next[|next| - 1] case Bind(attrs) => attrs case Open(_) => []
  }

  function BoundPieces(pieces: seq<Piece>): (r: seq<Attr>)
    ensures |r| == |pieces| && forall i :: 0 <= i < |r| ==> r[i] == pieces[i].bound
  {
    seq(|pieces|, i requires 0 <= i < |pieces| => pieces[i].bound)
  }

  ghost predicate Shows(lower: string -> string, h: Handler, m: Member)
    reads h.sensitive
  {
    h.lower == lower && h.sensitive.keys == m.sensitive && BoundAttrs(h.next) == BoundPieces(m.pieces)
  }

  /** Handlers on the heap, each with a map of its own, that show this family. */
  ghost predicate Realises(lower: string -> string, hs: seq<Handler>, f: Family)
    reads MapsOf(hs)
  {
    && OwnMaps(hs) && |hs| == |f.members|
    && forall i :: 0 <= i < |hs| ==> Shows(lower, hs[i], f.members[i])
  }

  /** A child with a map of its own joins the family. */
  lemma ChildJoins(lower: string -> string, hs: seq<Handler>, f: Family, child: Handler, m: Member)
    requires Realises(lower, hs, f) && child.sensitive !in MapsOf(hs) && Shows(lower, child, m)
    ensures Realises(lower, hs + [child], f.(members := f.members + [m]))
  {
    hide Shows;
  }

  /** A registration changes one map, and so one member. */
  method RegisterOn(lower: string -> string, hs: seq<Handler>, h: nat, keys: seq<string>, ghost f: Family)
    requires h < |hs| && Realises(lower, hs, f)
    modifies hs[h].sensitive
    ensures Realises(lower, hs, Perform(lower, f, RegisterKeys(h, keys)))
  {
    hs[h].RegisterSensitive(keys);
  }

  method DeriveAttrsOn(lower: string -> string, hs: seq<Handler>, h: nat, attrs: seq<Attr>, ghost f: Family)
    returns (child: Handler)
    requires h < |hs| && Realises(lower, hs, f)
    ensures fresh(child.sensitive) && Realises(lower, hs + [child], Perform(lower, f, DeriveAttrs(h, attrs)))
  {
    hide Redact, RedactAll;
    child := hs[h].WithAttrs(attrs);
    ghost var m, k := f.members[h], Keys(lower, hs[h].sensitive.keys);
    assert Shows(lower, hs[h], m);
    BoundMore(hs[h].next, Bind(RedactAll(k, attrs)));
    assert BoundPieces(m.pieces + BindAll(k, attrs)) == BoundPieces(m.pieces) + RedactAll(k, attrs);
    ChildJoins(lower, hs, f, child, Member(m.sensitive, m.pieces + BindAll(k, attrs)));
  }

  method DeriveGroupOn(lower: string -> string, hs: seq<Handler>, h: nat, name: string, ghost f: Family)
    returns (child: Handler)
    requires h < |hs| && Realises(lower, hs, f)
    ensures fresh(child.sensitive) && Realises(lower, hs + [child], Perform(lower, f, DeriveGroup(h, name)))
  {
    child := hs[h].WithGroup(name);
    assert Shows(lower, hs[h], f.members[h]);
    BoundMore(hs[h].next, Open(name));
    ChildJoins(lower, hs, f, child, f.members[h]);
  }

  /**
  One call on one handler of the heap. The family it leaves is the one the values give: so a
  registration reaches its receiver's map alone, and a child starts with the keys of its parent.
  */
  method CallOne(lower: string -> string, hs: seq<Handler>, c: Call, ghost f: Family)
    returns (after: seq<Handler>, record: seq<Attr>)
    requires c.h < |hs| && Realises(lower, hs, f)
    modifies hs[c.h].sensitive
    ensures hs <= after && Realises(lower, after, Perform(lower, f, c))
    ensures fresh(MapsOf(after) - MapsOf(hs))
    ensures forall g :: 0 <= g < |hs| && g != c.h ==> hs[g].sensitive.keys == old(hs[g].sensitive.keys)
    ensures c.Log? ==> Perform(lower, f, c).sink[|f.sink|].record == record
  {
    after, record := hs, [];
    match c {
      case RegisterKeys(h, keys) =>
        hide Shows;
        RegisterOn(lower, hs, h, keys, f);
      case DeriveAttrs(h, attrs) =>
        hide Shows, Perform;
        var child := DeriveAttrsOn(lower, hs, h, attrs, f);
        after := hs + [child];
      case DeriveGroup(h, name) =>
        hide Shows, Perform;
        var child := DeriveGroupOn(lower, hs, h, name, f);
        after := hs + [child];
      case Log(h, attrs) =>
        hide MaskedByPath, RedactAll, Settled;
        assert Shows(lower, hs[h], f.members[h]);
        record := hs[h].Handle(attrs);
    }
  }

  lemma BoundMore(next: seq<Bound>, b: Bound)
    ensures BoundAttrs(next + [b]) == BoundAttrs(next) + match b case Bind(attrs) => attrs case Open(_) => []
  {
    assert (next + [b])[..|next|] == next;
  }

  /** The records that reached the sink. */
  function Records(sink: seq<Line>): (r: seq<seq<Attr>>)
    ensures |r| == |sink| && forall i :: 0 <= i < |r| ==> r[i] == sink[i].record
  {
    seq(|sink|, i requires 0 <= i < |sink| => sink[i].record)
  }

  lemma SinkGrows(lower: string -> string, f: Family, c: Call)
    requires c.h < |f.members|
    ensures f.sink <= Perform(lower, f, c).sink
    ensures |Perform(lower, f, c).sink| == |f.sink| + if c.Log? then 1 else 0
  {
  }

  lemma RecordsGrow(lower: string -> string, f: Family, c: Call, from: nat)
    requires c.h < |f.members| && from <= |f.sink|
    ensures var g := Perform(lower, f, c);
      && f.sink <= g.sink && |g.sink| == |f.sink| + (if c.Log? then 1 else 0)
      && Records(g.sink[from..]) == Records(f.sink[from..]) + if c.Log? then [g.sink[|f.sink|].record] else []
  {
    SinkGrows(lower, f, c);
    var g := Perform(lower, f, c);
    hide Perform;
    assert c.Log? ==> g.sink[from..] == f.sink[from..] + [g.sink[|f.sink|]];
  }

  /**
  Any program of calls on a family on the heap leaves what the values give, and emits the very
  records that the values put into the sink. A handler that is not called keeps its keys,
  whatever its parent, children and siblings register.
  */
  method CallAll(lower: string -> string, hs: seq<Handler>, cs: seq<Call>, ghost f: Family)
    returns (after: seq<Handler>, records: seq<seq<Attr>>)
    requires Realises(lower, hs, f) && ValidCalls(lower, f, cs)
    modifies MapsOf(hs)
    ensures hs <= after && Realises(lower, after, AfterCalls(lower, f, cs))
    ensures f.sink <= AfterCalls(lower, f, cs).sink
    ensures records == Records(AfterCalls(lower, f, cs).sink[|f.sink|..])
    ensures forall g :: 0 <= g < |hs| && (forall i :: 0 <= i < |cs| ==> cs[i].h != g) ==>
      after[g].sensitive.keys == old(hs[g].sensitive.keys)
  {
    forall g | 0 <= g < |hs| && (forall i :: 0 <= i < |cs| ==> cs[i].h != g)
      ensures g < |AfterCalls(lower, f, cs).members| && AfterCalls(lower, f, cs).members[g] == f.members[g]
    {
      OthersCallsStayLocal(lower, f, cs, g);
    }
    hide Perform, Records, Shows;
    after, records := hs, [];
    ghost var now := f;
    for n := 0 to |cs|
      invariant hs <= after && fresh(MapsOf(after) - MapsOf(hs)) && Realises(lower, after, now)
      invariant f.sink <= now.sink && records == Records(now.sink[|f.sink|..])
      invariant ValidCalls(lower, now, cs[n..])
      invariant AfterCalls(lower, now, cs[n..]) == AfterCalls(lower, f, cs)
    {
      assert cs[n..][0] == cs[n] && cs[n..][1..] == cs[n + 1..];
      var next, record := CallOne(lower, after, cs[n], now);
      RecordsGrow(lower, now, cs[n], |f.sink|);
      if cs[n].Log? {
        records := records + [record];
      }
      after, now := next, Perform(lower, now, cs[n]);
    }
    assert cs[|cs|..] == [];
  }

  /**
  From newRedactingHandler on, whatever is called: no map is ever shared, and every record that
  the handlers emit is masked for the keys registered when it was logged.
  */
  method CallOnNew(lower: string -> string, cs: seq<Call>) returns (hs: seq<Handler>, records: seq<seq<Attr>>)
    requires ValidCalls(lower, NewFamily(), cs)
    ensures OwnMaps(hs) && Realises(lower, hs, AfterCalls(lower, NewFamily(), cs))
    ensures var sink := AfterCalls(lower, NewFamily(), cs).sink;
      && |records| == |sink|
      && forall i :: 0 <= i < |records| ==> sink[i].record == records[i] && LineSafe(lower, sink[i])
  {
    EverythingIsMasked(lower, cs);
    hide LineSafe;
    var root := new Handler(lower, []);
    hs, records := CallAll(lower, [root], cs, NewFamily());
    ghost var sink := AfterCalls(lower, NewFamily(), cs).sink;
    assert sink[0..] == sink;
  }
}

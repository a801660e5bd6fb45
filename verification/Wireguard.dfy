/** Which server settings only a full wg-quick restart can make live, and how hook texts compare. */
module Wireguard {
  import opened Lists

  /** The server settings that matter to the restart decision and to the routing of a write. */
  datatype Server = Server(
    listenPort: nat,
    address: string,
    dns: string,
    mtu: nat,
    table: string,
    fwMark: string,
    preUp: string,
    postUp: string,
    preDown: string,
    postDown: string,
    bgpEnabled: bool)

  // ---------------------------------------------------------------- hook lines

  /** White space in the sense of Unicode. */
  predicate IsSpace(c: char) {
    || '\t' <= c <= '\r' || c == ' ' || c == '\U{0085}' || c == '\U{00A0}' || c == '\U{1680}'
    || '\U{2000}' <= c <= '\U{200A}' || c == '\U{2028}' || c == '\U{2029}' || c == '\U{202F}'
    || c == '\U{205F}' || c == '\U{3000}'
  }

  function TrimLeft(s: string): string {
    if s != "" && IsSpace(s[0]) then TrimLeft(s[1..]) else s
  }

  function TrimRight(s: string): string {
    if s != "" && IsSpace(s[|s| - 1]) then TrimRight(s[..|s| - 1]) else s
  }

  function Trim(s: string): string {
    TrimRight(TrimLeft(s))
  }

  /** The text between newlines, at least one piece. */
  function Lines(value: string): (r: seq<string>)
    ensures r != []
  {
    if value == "" then [""]
    else
      Extend(Lines(value[..|value| - 1]), value[|value| - 1])
  }

  function HookLine(line: string): seq<string> {
    if Trim(line) == "" then [] else [Trim(line)]
  }

  /** The commands a hook text stands for: its lines, trimmed, without the blank ones. */
  function Hooks(value: string): seq<string> {
    FlatMap(HookLine, Lines(value))
  }

  /** Splits at the newlines in one scan, trims each line and drops the empty ones. */
  method HookLines(value: string) returns (lines: seq<string>)
    ensures lines == Hooks(value)
  {
    hide Lines;
    hide Trim;
    hide FlatMap;
    lines := [];
    var start := 0;
    NoLines();
    FlatMapEmpty(HookLine, [""]);
    ghost var done: seq<string> := [];
    for i := 0 to |value|
      invariant start <= i
      invariant Lines(value[..i]) == done + [value[start..i]]
      invariant lines == FlatMap(HookLine, done)
    {
      assert value[..i + 1] == value[..i] + [value[i]];
      LinesSnoc(value[..i], value[i]);
      if value[i] == '\n' {
        var line := Trim(value[start..i]);
        if line != "" {
          lines := lines + [line];
        }
        OneMore(done, value[start..i]);
        done := done + [value[start..i]];
        start := i + 1;
        assert value[start..i + 1] == "";
      } else {
        assert value[start..i + 1] == value[start..i] + [value[i]];
      }
    }
    assert value[..|value|] == value && value[start..] == value[start..|value|];
    OneMore(done, value[start..]);
    var line := Trim(value[start..]);
    if line != "" {
      lines := lines + [line];
    }
  }

  /** One more character: a newline opens a new piece, anything else extends the last. */
  function Extend(pieces: seq<string>, c: char): seq<string>
    requires pieces != []
  {
    if c == '\n' then pieces + [""] else pieces[..|pieces| - 1] + [pieces[|pieces| - 1] + [c]]
  }

  lemma LinesSnoc(value: string, c: char)
    ensures Lines(value + [c]) == Extend(Lines(value), c)
  {
    var all := value + [c];
    assert all[..|all| - 1] == value && all[|all| - 1] == c;
  }

  lemma NoLines()
    ensures Lines("") == [""]
  {
  }

  lemma OneMore(done: seq<string>, line: string)
    ensures FlatMap(HookLine, done + [line]) == FlatMap(HookLine, done) + HookLine(line)
  {
    var all := done + [line];
    assert all[..|done|] == done && all[..|all|] == all;
    FlatMapStep(HookLine, all, |done|);
  }

  /** A newline separates hook texts: blank lines and surrounding space never matter. */
  lemma HooksJoin(a: string, b: string)
    ensures Hooks(a + "\n" + b) == Hooks(a) + Hooks(b)
  {
    LinesJoin(a, b);
    FlatMapAppend(HookLine, Lines(a), Lines(b));
  }

  lemma ExtendLast(front: seq<string>, pieces: seq<string>, c: char)
    requires pieces != []
    ensures Extend(front + pieces, c) == front + Extend(pieces, c)
  {
    var all := front + pieces;
    assert all[..|all| - 1] == front + pieces[..|pieces| - 1] && all[|all| - 1] == pieces[|pieces| - 1];
  }

  lemma {:induction false} LinesJoin(a: string, b: string)
    ensures Lines(a + "\n" + b) == Lines(a) + Lines(b)
  {
    hide Lines;
    var joined := a + "\n";
    if b == "" {
      NoLines();
      LinesSnoc(a, '\n');
      assert joined + b == joined == a + ['\n'];
    } else {
      hide Extend;
      var init, last := b[..|b| - 1], b[|b| - 1];
      LinesJoin(a, init);
      assert b == init + [last];
      assert joined + b == (joined + init) + [last];
      LinesSnoc(joined + init, last);
      LinesSnoc(init, last);
      ExtendLast(Lines(a), Lines(init), last);
    }
  }

  /** A line as a hook list holds it. */
  ghost predicate Clean(line: string) {
    '\n' !in line && line != "" && Trim(line) == line
  }

  lemma {:induction false} LinesHaveNoNewline(value: string)
    ensures forall l :: l in Lines(value) ==> '\n' !in l
  {
    if value != "" {
      var init, last := value[..|value| - 1], value[|value| - 1];
      assert value == init + [last];
      LinesHaveNoNewline(init);
      LinesSnoc(init, last);
      var ls := Lines(init);
      assert ls[|ls| - 1] in ls;
      assert forall l :: l in ls[..|ls| - 1] ==> l in ls;
    }
  }

  lemma {:induction false} TrimRightKeeps(s: string)
    ensures TrimRight(s) <= s
    ensures TrimRight(s) == "" || !IsSpace(TrimRight(s)[|TrimRight(s)| - 1])
  {
    if s != "" && IsSpace(s[|s| - 1]) {
      TrimRightKeeps(s[..|s| - 1]);
    }
  }

  lemma {:induction false} TrimLeftKeeps(s: string)
    ensures TrimLeft(s) == "" || !IsSpace(TrimLeft(s)[0])
    ensures forall c :: c in TrimLeft(s) ==> c in s
  {
    if s != "" && IsSpace(s[0]) {
      TrimLeftKeeps(s[1..]);
    }
  }

  lemma TrimmedIsClean(line: string)
    requires '\n' !in line && Trim(line) != ""
    ensures Clean(Trim(line))
  {
    TrimLeftKeeps(line);
    TrimRightKeeps(TrimLeft(line));
    var t := Trim(line);
    assert t[0] == TrimLeft(line)[0] && forall c :: c in t ==> c in TrimLeft(line);
    assert TrimLeft(t) == t && TrimRight(t) == t;
  }

  lemma HooksAreClean(value: string)
    ensures forall l :: l in Hooks(value) ==> Clean(l)
  {
    LinesHaveNoNewline(value);
    forall l | l in Hooks(value)
      ensures Clean(l)
    {
      InFlatMap(HookLine, Lines(value), l);
      var line :| line in Lines(value) && l in HookLine(line);
      TrimmedIsClean(line);
    }
  }

  /** The text of a list of lines. */
  function Text(lines: seq<string>): string {
    if lines == [] then "" else Text(lines[..|lines| - 1]) + "\n" + lines[|lines| - 1]
  }

  lemma {:induction false} CleanLine(line: string)
    requires '\n' !in line
    ensures Lines(line) == [line]
  {
    if line != "" {
      var init, last := line[..|line| - 1], line[|line| - 1];
      assert line == init + [last];
      CleanLine(init);
      LinesSnoc(init, last);
    }
  }

  /** Writing clean lines out and reading them back gives the same lines. */
  lemma {:induction false} ReadBack(lines: seq<string>)
    requires forall l :: l in lines ==> Clean(l)
    ensures Hooks(Text(lines)) == lines
  {
    if lines == [] {
      BlankHook();
    } else {
      var init, last := lines[..|lines| - 1], lines[|lines| - 1];
      assert lines == init + [last];
      assert Clean(last) && forall l :: l in init ==> l in lines;
      ReadBack(init);
      HooksJoin(Text(init), last);
      CleanLine(last);
      SingleHook(last);
    }
  }

  lemma BlankHook()
    ensures Hooks("") == []
  {
    OneMore([], "");
    assert [] + [""] == Lines("");
  }

  lemma SingleHook(line: string)
    requires Clean(line) && Lines(line) == [line]
    ensures Hooks(line) == [line]
  {
    OneMore([], line);
    assert [] + [line] == Lines(line);
  }

  /** Every hook text has a normal form: the text of its lines. Two texts hold the same commands
      exactly when their normal forms are the same text. */
  lemma NormalForm(a: string, b: string)
    ensures Hooks(Text(Hooks(a))) == Hooks(a)
    ensures Hooks(a) == Hooks(b) <==> Text(Hooks(a)) == Text(Hooks(b))
  {
    HooksAreClean(a);
    HooksAreClean(b);
    ReadBack(Hooks(a));
    ReadBack(Hooks(b));
  }

  // ---------------------------------------------------------------- the restart decision

  /** The fields wg-quick alone applies, in the order they are reported. */
  datatype Field = AddressField | DnsField | MtuField | TableField | FwMarkField
                 | PreUpField | PostUpField | PreDownField | PostDownField

  predicate Differs(f: Field, a: Server, b: Server) {
    match f
    case AddressField => a.address != b.address
    case DnsField => a.dns != b.dns
    case MtuField => a.mtu != b.mtu
    case TableField => a.table != b.table
    case FwMarkField => a.fwMark != b.fwMark
    case PreUpField => Hooks(a.preUp) != Hooks(b.preUp)
    case PostUpField => Hooks(a.postUp) != Hooks(b.postUp)
    case PreDownField => Hooks(a.preDown) != Hooks(b.preDown)
    case PostDownField => Hooks(a.postDown) != Hooks(b.postDown)
  }

  /** The interface section wg-quick would build is the same for both. */
  ghost predicate SameInterface(a: Server, b: Server) {
    forall f: Field :: !Differs(f, a, b)
  }

  const FIELDS := [AddressField, DnsField, MtuField, TableField, FwMarkField,
                   PreUpField, PostUpField, PreDownField, PostDownField]

  lemma FieldsComplete()
    ensures forall f: Field :: f in FIELDS
  {
    forall f: Field
      ensures f in FIELDS
    {
      var i := match f
        case AddressField => 0
        case DnsField => 1
        case MtuField => 2
        case TableField => 3
        case FwMarkField => 4
        case PreUpField => 5
        case PostUpField => 6
        case PreDownField => 7
        case PostDownField => 8;
      assert FIELDS[i] == f;
    }
  }

  method HookChanged(a: string, b: string) returns (changed: bool)
    ensures changed <==> Hooks(a) != Hooks(b)
  {
    var before := HookLines(a);
    var after := HookLines(b);
    changed := before != after;
  }

  method FieldChanged(f: Field, a: Server, b: Server) returns (changed: bool)
    ensures changed <==> Differs(f, a, b)
  {
    match f {
      case AddressField => changed := a.address != b.address;
      case DnsField => changed := a.dns != b.dns;
      case MtuField => changed := a.mtu != b.mtu;
      case TableField => changed := a.table != b.table;
      case FwMarkField => changed := a.fwMark != b.fwMark;
      case PreUpField => changed := HookChanged(a.preUp, b.preUp);
      case PostUpField => changed := HookChanged(a.postUp, b.postUp);
      case PreDownField => changed := HookChanged(a.preDown, b.preDown);
      case PostDownField => changed := HookChanged(a.postDown, b.postDown);
    }
  }

  lemma SameMeans(a: Server, b: Server)
    ensures SameInterface(a, b) <==>
              && a.address == b.address && a.dns == b.dns && a.mtu == b.mtu && a.table == b.table
                 && a.fwMark == b.fwMark
              && Hooks(a.preUp) == Hooks(b.preUp) && Hooks(a.postUp) == Hooks(b.postUp)
              && Hooks(a.preDown) == Hooks(b.preDown) && Hooks(a.postDown) == Hooks(b.postDown)
  {
    hide Hooks;
    if SameInterface(a, b) {
      assert !Differs(AddressField, a, b) && !Differs(DnsField, a, b) && !Differs(MtuField, a, b)
             && !Differs(TableField, a, b) && !Differs(FwMarkField, a, b);
      assert !Differs(PreUpField, a, b) && !Differs(PostUpField, a, b) && !Differs(PreDownField, a, b)
             && !Differs(PostDownField, a, b);
    }
  }

  /** No reason exactly when nothing wg-quick owns changed; a reason names exactly what changed. */
  method ServerRestartReason(previous: Server, next: Server) returns (reason: Option<seq<Field>>)
    ensures reason == None <==> SameInterface(previous, next)
    ensures reason == None <==>
              && previous.address == next.address && previous.dns == next.dns && previous.mtu == next.mtu
              && previous.table == next.table && previous.fwMark == next.fwMark
              && Hooks(previous.preUp) == Hooks(next.preUp) && Hooks(previous.postUp) == Hooks(next.postUp)
              && Hooks(previous.preDown) == Hooks(next.preDown) && Hooks(previous.postDown) == Hooks(next.postDown)
    ensures reason.Some? ==> forall f :: f in reason.value <==> Differs(f, previous, next)
  {
    hide Differs;
    FieldsComplete();
    SameMeans(previous, next);
    var fields: seq<Field> := [];
    for i := 0 to |FIELDS|
      invariant forall f :: f in fields <==> f in FIELDS[..i] && Differs(f, previous, next)
    {
      var changed := FieldChanged(FIELDS[i], previous, next);
      assert FIELDS[..i + 1] == FIELDS[..i] + [FIELDS[i]];
      if changed {
        fields := fields + [FIELDS[i]];
      }
    }
    assert FIELDS[..|FIELDS|] == FIELDS;
    reason := if fields == [] then None else Some(fields);
    assert fields != [] ==> Differs(fields[0], previous, next);
    assert fields == [] ==> forall f: Field :: f in FIELDS && f !in fields;
  }

  /** Same interface is an equivalence, so undoing an edit undoes its reason. */
  lemma SameInterfaceIsEquivalence(a: Server, b: Server, c: Server)
    ensures SameInterface(a, a)
    ensures SameInterface(a, b) ==> SameInterface(b, a)
    ensures SameInterface(a, b) && SameInterface(b, c) ==> SameInterface(a, c)
  {
    forall f: Field
      ensures Differs(f, a, b) == Differs(f, b, a)
      ensures !Differs(f, a, b) && !Differs(f, b, c) ==> !Differs(f, a, c)
    {
    }
  }

  /** Blank lines around or between the lines of a hook never cost a restart. */
  lemma BlankLinesDoNotMatter(s: Server, a: string, b: string)
    ensures SameInterface(s.(postUp := a + "\n" + b), s.(postUp := a + "\n" + ("" + "\n" + b)))
    ensures SameInterface(s.(postUp := a), s.(postUp := a + "\n" + ""))
    ensures SameInterface(s.(postUp := a), s.(postUp := "" + "\n" + a))
  {
    hide Hooks;
    BlankHook();
    HooksJoin(a, "" + "\n" + b);
    HooksJoin("", b);
    HooksJoin(a, b);
    HooksJoin(a, "");
    HooksJoin("", a);
  }

  /** Blanks as they occur at either end of a line. */
  ghost predicate Blanks(s: string) {
    forall c :: c in s ==> c in {' ', '\t', '\U{000B}', '\U{000C}', '\r', '\U{0085}', '\U{00A0}'}
  }

  lemma {:induction false} TrimLeftBlanks(lead: string, s: string)
    requires Blanks(lead)
    ensures TrimLeft(lead + s) == TrimLeft(s)
  {
    if lead == "" {
      assert lead + s == s;
    } else {
      assert lead[0] in lead && (lead + s)[0] == lead[0] && (lead + s)[1..] == lead[1..] + s;
      assert forall c :: c in lead[1..] ==> c in lead;
      TrimLeftBlanks(lead[1..], s);
    }
  }

  lemma {:induction false} TrimRightBlanks(s: string, trail: string)
    requires Blanks(trail)
    ensures TrimRight(s + trail) == TrimRight(s)
  {
    if trail == "" {
      assert s + trail == s;
    } else {
      var init, last := trail[..|trail| - 1], trail[|trail| - 1];
      assert last in trail && (s + trail)[..|s + trail| - 1] == s + init;
      assert forall c :: c in init ==> c in trail;
      TrimRightBlanks(s, init);
    }
  }

  /** Trimming from the left either stops within s or goes on behind it. */
  lemma {:induction false} TrimLeftAppend(s: string, t: string)
    ensures TrimLeft(s + t) == if TrimLeft(s) == "" then TrimLeft(t) else TrimLeft(s) + t
  {
    if s == "" {
      assert s + t == t;
    } else {
      assert (s + t)[0] == s[0] && (s + t)[1..] == s[1..] + t;
      TrimLeftAppend(s[1..], t);
    }
  }

  lemma TrimBlanks(lead: string, line: string, trail: string)
    requires Blanks(lead) && Blanks(trail)
    ensures Trim(lead + line + trail) == Trim(line)
  {
    assert lead + line + trail == lead + (line + trail);
    TrimLeftBlanks(lead, line + trail);
    TrimLeftAppend(line, trail);
    TrimLeftBlanks(trail, "");
    assert trail + "" == trail;
    TrimRightBlanks(TrimLeft(line), trail);
  }

  lemma OneLine(line: string)
    requires '\n' !in line
    ensures Hooks(line) == HookLine(line)
  {
    CleanLine(line);
    OneMore([], line);
    assert [] + [line] == Lines(line);
  }

  /** Nor does indentation, or what trails a line. */
  lemma IndentationDoesNotMatter(s: Server, a: string, lead: string, line: string, trail: string, b: string)
    requires Blanks(lead) && Blanks(trail) && '\n' !in line
    ensures SameInterface(s.(postUp := a + "\n" + (line + "\n" + b)),
                          s.(postUp := a + "\n" + ((lead + line + trail) + "\n" + b)))
  {
    hide Hooks;
    hide Trim;
    TrimBlanks(lead, line, trail);
    OneLine(line);
    OneLine(lead + line + trail);
    HooksJoin(a, line + "\n" + b);
    HooksJoin(line, b);
    HooksJoin(a, (lead + line + trail) + "\n" + b);
    HooksJoin(lead + line + trail, b);
  }
}

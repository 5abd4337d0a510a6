/** The PIO trace: the line `pio_trace` prints (src/vm.c) and the regular expression and
    loader that read it back (tools/pio_decode.py). */
module PioTrace {
  import opened Common
  import Bytes

  /* ---------------------------------------------------------------- */
  /* Characters and numbers                                            */
  /* ---------------------------------------------------------------- */

  /** `\s`, within Latin-1. */
  predicate Space(c: char) {
    var n := c as int;
    n == 32 || 9 <= n <= 13 || 28 <= n <= 31 || n == 0x85 || n == 0xa0
  }

  predicate Blank(s: string) {
    forall i :: 0 <= i < |s| ==> Space(s[i])
  }

  /** `\S+` */
  predicate Token(s: string) {
    s != "" && forall i :: 0 <= i < |s| ==> !Space(s[i])
  }

  datatype Base = Ten | Sixteen

  predicate Digit(c: char, b: Base) {
    '0' <= c <= '9' || (b.Sixteen? && 'a' <= c <= 'f')
  }

  predicate AllDigits(s: string, b: Base) {
    forall i :: 0 <= i < |s| ==> Digit(s[i], b)
  }

  /** `\d+` and `[0-9a-f]+` */
  predicate Number(s: string, b: Base) {
    s != "" && AllDigits(s, b)
  }

  function DigitValue(c: char): nat
    requires Digit(c, Sixteen)
  {
    if c <= '9' then c as int - '0' as int else c as int - 'a' as int + 10
  }

  function DigitChar(d: nat): (c: char)
    requires d < 16
    ensures Digit(c, Sixteen) && DigitValue(c) == d && (d < 10 ==> Digit(c, Ten))
  {
    if d < 10 then ('0' as int + d) as char else ('a' as int + (d - 10)) as char
  }

  /** What Python's `int(s, base)` makes of a number. */
  function Value(s: string, b: Base): nat
    requires AllDigits(s, b)
  {
    if s == "" then 0
    else
      var v := Value(s[..|s| - 1], b);
      (if b.Ten? then 10 * v else 16 * v) + DigitValue(s[|s| - 1])
  }

  /** `%llx` and `%lld` of a natural number. */
  function Digits(n: nat, b: Base): (s: string)
    ensures Number(s, b)
  {
    var q, r := if b.Ten? then n / 10 else n / 16, if b.Ten? then n % 10 else n % 16;
    if q == 0 then [DigitChar(r)] else Digits(q, b) + [DigitChar(r)]
  }

  function Zeros(n: int): (s: string)
    ensures forall i :: 0 <= i < |s| ==> s[i] == '0'
  {
    if n <= 0 then "" else Zeros(n - 1) + "0"
  }

  /** `%0*llx` and `%06ld`: at least `width` digits. */
  function Padded(n: nat, width: nat, b: Base): (s: string)
    ensures Number(s, b)
  {
    Zeros(width - |Digits(n, b)|) + Digits(n, b)
  }

  lemma {:induction false} DigitsValue(n: nat, b: Base)
    ensures Value(Digits(n, b), b) == n
  {
    var q, r := if b.Ten? then n / 10 else n / 16, if b.Ten? then n % 10 else n % 16;
    if q == 0 {
      assert [DigitChar(r)][..0] == "";
    } else {
      DigitsValue(q, b);
      assert Digits(n, b)[..|Digits(n, b)| - 1] == Digits(q, b);
    }
  }

  lemma {:induction false} ZerosValue(n: int, b: Base)
    ensures Value(Zeros(n), b) == 0
  {
    if n > 0 {
      ZerosValue(n - 1, b);
      assert Zeros(n)[..|Zeros(n)| - 1] == Zeros(n - 1);
    }
  }

  lemma {:induction false} ZerosInFront(n: int, s: string, b: Base)
    requires AllDigits(s, b)
    ensures Value(Zeros(n) + s, b) == Value(s, b)
    decreases |s|
  {
    if s == "" {
      assert Zeros(n) + s == Zeros(n);
      ZerosValue(n, b);
    } else {
      var t := Zeros(n) + s;
      assert t[..|t| - 1] == Zeros(n) + s[..|s| - 1];
      ZerosInFront(n, s[..|s| - 1], b);
    }
  }

  /** Padding does not change the number. */
  lemma PaddedValue(n: nat, width: nat, b: Base)
    ensures Value(Padded(n, width, b), b) == n
  {
    ZerosInFront(width - |Digits(n, b)|, Digits(n, b), b);
    DigitsValue(n, b);
  }

  /* ---------------------------------------------------------------- */
  /* The printer                                                       */
  /* ---------------------------------------------------------------- */

  /** One access: time, device, port, direction, size, the bytes and the guest RIP. */
  datatype Access = Access(sec: nat, usec: nat, name: string, port: nat, out: bool, size: nat,
                           val: seq<Bytes.byte>, rip: nat)

  function Shown(size: nat): nat {
    if size < 8 then size else 8
  }

  /** The value printed: little endian, at most eight bytes of the window. */
  function Printed(a: Access): nat
    requires Shown(a.size) <= |a.val|
  {
    Bytes.FromLe(a.val[..Shown(a.size)])
  }

  function Time(a: Access): string {
    Digits(a.sec, Ten) + "." + Padded(a.usec, 6, Ten)
  }

  function Spaces(n: int): (s: string)
    ensures Blank(s) && (n > 0 ==> s != "")
  {
    if n <= 0 then "" else " " + Spaces(n - 1)
  }

  /** A word of the line, the white space after it, and the rest. */
  function Field(word: string, gap: string, rest: string): string {
    word + (gap + rest)
  }

  /** The two `fprintf` calls and the newline of `pio_trace` for the value `v`. */
  function Format(a: Access, v: nat): string {
    Field(Time(a), " ",
      Field(a.name, Spaces(11 - |a.name|) + " ",
        Field(Padded(a.port, 4, Sixteen), " ",
          Field([if a.out then 'W' else 'R'] + Digits(a.size, Ten), " ",
            if a.rip == 0 then Field(Padded(v, 2 * a.size, Sixteen), "\n", "")
            else Field(Padded(v, 2 * a.size, Sixteen), " ", Field("rip=" + Padded(a.rip, 16, Sixteen), "\n", ""))))))
  }

  /** The line of `pio_trace`. */
  function Line(a: Access): string
    requires Shown(a.size) <= |a.val|
  {
    Format(a, Printed(a))
  }

  lemma {:induction false} FromLeAppend(p: seq<Bytes.byte>, b: Bytes.byte)
    ensures Bytes.FromLe(p + [b]) == Bytes.FromLe(p) + Bytes.Pow256(|p|) * b
  {
    if p == [] {
      assert [b][1..] == [];
    } else {
      assert (p + [b])[1..] == p[1..] + [b];
      FromLeAppend(p[1..], b);
      assert 256 * (Bytes.Pow256(|p| - 1) * b) == Bytes.Pow256(|p|) * b;
    }
  }

  /** The loop that assembles the value. */
  method Assemble(size: nat, val: seq<Bytes.byte>) returns (v: nat)
    requires Shown(size) <= |val|
    ensures v == Bytes.FromLe(val[..Shown(size)])
  {
    v := 0;
    var i, weight := 0, 1;
    while i < size && i < 8
      invariant i <= Shown(size) && weight == Bytes.Pow256(i) && v == Bytes.FromLe(val[..i])
    {
      FromLeAppend(val[..i], val[i]);
      assert val[..i + 1] == val[..i] + [val[i]];
      v := v + weight * val[i] as int;
      weight := 256 * weight;
      i := i + 1;
    }
  }

  /** `pio_trace`. */
  method Print(a: Access) returns (line: string)
    requires Shown(a.size) <= |a.val|
    ensures line == Line(a)
  {
    var v := Assemble(a.size, a.val);
    line := Format(a, v);
  }

  /* ---------------------------------------------------------------- */
  /* The regular expression                                            */
  /* ---------------------------------------------------------------- */

  datatype Groups = Groups(ts: string, dev: string, port: string, dir: char, size: string, val: string,
                           rip: Option<string>)

  /** `\d+\.\d+` */
  predicate Timestamp(s: string) {
    exists k :: 0 <= k < |s| && s[k] == '.' && Number(s[..k], Ten) && Number(s[k + 1..], Ten)
  }

  predicate GroupsOk(g: Groups) {
    && Timestamp(g.ts) && Token(g.dev) && Number(g.port, Sixteen) && (g.dir == 'R' || g.dir == 'W')
    && Number(g.size, Ten) && Number(g.val, Sixteen) && (g.rip.Some? ==> Number(g.rip.value, Sixteen))
  }

  /** The words of the line the groups come from. */
  function WordsOf(g: Groups): seq<string> {
    [g.ts, g.dev, g.port, [g.dir] + g.size, g.val] + if g.rip.Some? then ["rip=" + g.rip.value] else []
  }

  /** Words each followed by its white space. */
  function Joined(ws: seq<string>, gaps: seq<string>): string
    requires |ws| == |gaps|
  {
    if ws == [] then "" else Field(ws[0], gaps[0], Joined(ws[1..], gaps[1..]))
  }

  /** White space between words, possibly none after the last. */
  predicate Gaps(gaps: seq<string>) {
    (forall i :: 0 <= i < |gaps| ==> Blank(gaps[i])) && (forall i :: 0 <= i < |gaps| - 1 ==> gaps[i] != "")
  }

  /** `TRACE_RE.match(line)` succeeds with these groups: the pattern spelled out. */
  ghost predicate Matches(line: string, g: Groups) {
    GroupsOk(g) && exists gaps :: |gaps| == |WordsOf(g)| && Gaps(gaps) && line == Joined(WordsOf(g), gaps)
  }

  /* ---------------------------------------------------------------- */
  /* The matcher                                                       */
  /* ---------------------------------------------------------------- */

  /** Length of the leading run of characters that are, or are not, white space. */
  function Run(s: string, space: bool): (n: nat)
    ensures n <= |s| && (forall i :: 0 <= i < n ==> Space(s[i]) == space) && (n < |s| ==> Space(s[n]) != space)
  {
    if s == "" || Space(s[0]) != space then 0 else 1 + Run(s[1..], space)
  }

  /** The maximal words of `s` and the white space after each, for `s` not starting with
      white space. */
  function Words(s: string): (r: (seq<string>, seq<string>))
    requires s == "" || !Space(s[0])
    ensures |r.0| == |r.1| && Joined(r.0, r.1) == s && Gaps(r.1) && forall w :: w in r.0 ==> Token(w)
    decreases |s|
  {
    if s == "" then ([], [])
    else
      var n := Run(s, false);
      var m := Run(s[n..], true);
      var (ws, gaps) := Words(s[n..][m..]);
      WordsStep(s, n, m, ws, gaps);
      ([s[..n]] + ws, [s[n..][..m]] + gaps)
  }

  lemma TakeRun(s: string, space: bool)
    ensures forall i :: 0 <= i < Run(s, space) ==> Space(s[..Run(s, space)][i]) == space
  {
    hide Space;
  }

  lemma WordsStep(s: string, n: nat, m: nat, ws: seq<string>, gaps: seq<string>)
    requires s != "" && !Space(s[0]) && n == Run(s, false) && m == Run(s[n..], true)
    requires |ws| == |gaps| && Joined(ws, gaps) == s[n..][m..] && Gaps(gaps) && forall w :: w in ws ==> Token(w)
    ensures n > 0 && Joined([s[..n]] + ws, [s[n..][..m]] + gaps) == s && Gaps([s[n..][..m]] + gaps)
    ensures forall w :: w in [s[..n]] + ws ==> Token(w)
  {
    TakeRun(s, false);
    TakeRun(s[n..], true);
    var w, g := s[..n], s[n..][..m];
    assert Token(w) && Blank(g);
    if ws != [] {
      assert ws[0] in ws;
      assert Joined(ws, gaps) != "" && Space(s[n..][0]);
    }
    Rejoined(s, n, m);
    hide Space, Token, Blank, Run;
    assert ([w] + ws)[1..] == ws && ([g] + gaps)[1..] == gaps;
    hide Field;
    GapsNext(g, gaps, ws);
  }

  lemma Rejoined(s: string, n: nat, m: nat)
    requires n <= |s| && m <= |s[n..]|
    ensures Field(s[..n], s[n..][..m], s[n..][m..]) == s
  {
    assert s[n..][..m] + s[n..][m..] == s[n..];
    assert s[..n] + s[n..] == s;
  }

  lemma GapsNext(g: string, gaps: seq<string>, ws: seq<string>)
    requires Blank(g) && Gaps(gaps) && |ws| == |gaps| && (ws != [] ==> g != "")
    ensures Gaps([g] + gaps)
  {
    hide Blank;
    var hs := [g] + gaps;
    forall i | 0 <= i < |hs| ensures Blank(hs[i]) && (i < |hs| - 1 ==> hs[i] != "") {
      assert i > 0 ==> hs[i] == gaps[i - 1];
    }
  }

  /** A joined line splits into its words again, whatever the gaps. */
  lemma {:induction false} WordsOfJoined(ws: seq<string>, gaps: seq<string>)
    requires |ws| == |gaps| && Gaps(gaps) && forall w :: w in ws ==> Token(w)
    ensures var s := Joined(ws, gaps); (s == "" || !Space(s[0])) && Words(s).0 == ws
  {
    hide Space, Token, Blank, Gaps, Run, Field, Words, Joined;
    if ws == [] {
      NoWords(gaps);
    } else {
      FirstGap(ws, gaps);
      WordsOfJoined(ws[1..], gaps[1..]);
      WordsOfField(ws[0], gaps[0], Joined(ws[1..], gaps[1..]));
      assert [ws[0]] + ws[1..] == ws;
    }
  }

  lemma NoWords(gaps: seq<string>)
    requires gaps == []
    ensures Joined([], gaps) == "" && Words("").0 == []
  {
  }

  lemma FirstGap(ws: seq<string>, gaps: seq<string>)
    requires |ws| == |gaps| > 0 && Gaps(gaps) && forall w :: w in ws ==> Token(w)
    ensures Joined(ws, gaps) == Field(ws[0], gaps[0], Joined(ws[1..], gaps[1..]))
    ensures Token(ws[0]) && Blank(gaps[0]) && (gaps[0] == "" ==> Joined(ws[1..], gaps[1..]) == "")
    ensures Gaps(gaps[1..]) && forall w :: w in ws[1..] ==> Token(w)
  {
    hide Space, Token, Blank, Field;
    assert ws[0] in ws;
    assert forall w :: w in ws[1..] ==> w in ws;
    assert forall i :: 0 <= i < |gaps[1..]| ==> gaps[1..][i] == gaps[i + 1];
  }

  lemma WordsOfField(w: string, g: string, t: string)
    requires Token(w) && Blank(g) && (t == "" || !Space(t[0])) && (g == "" ==> t == "")
    ensures var s := Field(w, g, t); s != "" && !Space(s[0]) && Words(s).0 == [w] + Words(t).0
  {
    FirstWord(w, g, t);
    hide Space, Token, Blank, Run, Field;
  }

  lemma FirstWord(w: string, g: string, t: string)
    requires Token(w) && Blank(g) && (t == "" || !Space(t[0])) && (g == "" ==> t == "")
    ensures var s := Field(w, g, t);
            && s != "" && !Space(s[0])
            && Run(s, false) == |w| && Run(s[|w|..], true) == |g| && s[..|w|] == w && s[|w|..][|g|..] == t
  {
    hide Space;
    var s, u := Field(w, g, t), g + t;
    assert forall i :: 0 <= i < |w| ==> s[i] == w[i];
    assert forall i :: 0 <= i < |g| ==> u[i] == g[i];
    assert s[|w|..] == u && u[|g|..] == t && s[..|w|] == w;
    assert |w| < |s| ==> s[|w|] == u[0];
    assert |g| < |u| ==> u[|g|] == t[0];
    RunIs(s, false, |w|);
    RunIs(u, true, |g|);
  }

  lemma RunIs(s: string, space: bool, n: nat)
    requires n <= |s| && (forall i :: 0 <= i < n ==> Space(s[i]) == space) && (n < |s| ==> Space(s[n]) != space)
    ensures Run(s, space) == n
  {
    var r := Run(s, space);
    assert r < |s| ==> Space(s[r]) != space;
    assert n < |s| ==> Space(s[n]) != space;
  }

  function FromWords(ws: seq<string>): Option<Groups> {
    if !(|ws| == 5 || |ws| == 6) || ws[3] == "" then None
    else if |ws| == 6 && (|ws[5]| < 4 || ws[5][..4] != "rip=") then None
    else
      var g := Groups(ws[0], ws[1], ws[2], ws[3][0], ws[3][1..], ws[4], if |ws| == 6 then Some(ws[5][4..]) else None);
      if GroupsOk(g) then Some(g) else None
  }

  /** The matcher: split into words, check each. */
  function Parse(line: string): Option<Groups> {
    if line == "" || Space(line[0]) then None else FromWords(Words(line).0)
  }

  lemma FromWordsSound(ws: seq<string>, g: Groups)
    requires FromWords(ws) == Some(g)
    ensures GroupsOk(g) && ws == WordsOf(g)
  {
    hide Timestamp, Number, Token;
    assert ws[3] == [g.dir] + g.size;
    assert |ws| == 6 ==> ws[5] == ws[5][..4] + ws[5][4..];
  }

  lemma FromWordsComplete(g: Groups)
    requires GroupsOk(g)
    ensures FromWords(WordsOf(g)) == Some(g)
  {
    hide Timestamp, Number, Token;
    var ws := WordsOf(g);
    assert ws[3][0] == g.dir && ws[3][1..] == g.size;
    assert |ws| == 6 ==> ws[5][..4] == "rip=" && ws[5][4..] == g.rip.value;
  }

  lemma NumberIsToken(s: string, b: Base)
    requires Number(s, b)
    ensures Token(s)
  {
  }

  lemma JoinedTokens(s: string, t: string)
    requires (s == "" || Token(s)) && (t == "" || Token(t)) && s + t != ""
    ensures Token(s + t)
  {
    hide Space;
  }

  lemma TimestampIsToken(s: string)
    requires Timestamp(s)
    ensures Token(s)
  {
    var k :| 0 <= k < |s| && s[k] == '.' && Number(s[..k], Ten) && Number(s[k + 1..], Ten);
    assert Token(".");
    NumberIsToken(s[..k], Ten);
    NumberIsToken(s[k + 1..], Ten);
    JoinedTokens(s[..k], ".");
    JoinedTokens(s[..k] + ".", s[k + 1..]);
    assert s == s[..k] + "." + s[k + 1..];
  }

  lemma WordsAreTokens(g: Groups)
    requires GroupsOk(g)
    ensures forall w :: w in WordsOf(g) ==> Token(w)
  {
    assert Token("rip=") && Token("R") && Token("W");
    hide Space, Token, Number, Timestamp;
    TimestampIsToken(g.ts);
    NumberIsToken(g.port, Sixteen);
    NumberIsToken(g.size, Ten);
    NumberIsToken(g.val, Sixteen);
    JoinedTokens([g.dir], g.size);
    if g.rip.Some? {
      NumberIsToken(g.rip.value, Sixteen);
      JoinedTokens("rip=", g.rip.value);
    }
  }

  /** The matcher is the pattern: it finds groups exactly when the pattern matches, and they
      are the only ones that do. */
  lemma ParseIsPattern(line: string, g: Groups)
    ensures Parse(line) == Some(g) <==> Matches(line, g)
  {
    hide GroupsOk, Gaps, Joined, Token, WordsOf, FromWords, Words, Space;
    if Matches(line, g) {
      var gaps :| |gaps| == |WordsOf(g)| && Gaps(gaps) && line == Joined(WordsOf(g), gaps);
      WordsAreTokens(g);
      WordsOfJoined(WordsOf(g), gaps);
      FromWordsComplete(g);
      NonEmpty(g, gaps);
    }
    if Parse(line) == Some(g) {
      FromWordsSound(Words(line).0, g);
      var gaps := Words(line).1;
      assert |gaps| == |WordsOf(g)| && Gaps(gaps) && line == Joined(WordsOf(g), gaps);
    }
  }

  lemma NonEmpty(g: Groups, gaps: seq<string>)
    requires GroupsOk(g) && |gaps| == |WordsOf(g)|
    ensures Joined(WordsOf(g), gaps) != ""
  {
    TimestampIsToken(g.ts);
  }

  /* ---------------------------------------------------------------- */
  /* Round trip                                                        */
  /* ---------------------------------------------------------------- */

  /** `Record`, without the conversion of the time to a float. */
  datatype Record = Record(line: nat, ts: string, dev: string, port: nat, dir: char, size: nat, val: nat,
                           rip: Option<nat>)

  function ToRecord(line: nat, g: Groups): Record
    requires GroupsOk(g)
  {
    Record(line, g.ts, g.dev, Value(g.port, Sixteen), g.dir, Value(g.size, Ten), Value(g.val, Sixteen),
           if g.rip.Some? then Some(Value(g.rip.value, Sixteen)) else None)
  }

  predicate Printable(a: Access) {
    Token(a.name) && Shown(a.size) <= |a.val|
  }

  /** What the access looks like in the trace. */
  function Logged(a: Access, line: nat): Record
    requires Printable(a)
  {
    Record(line, Time(a), a.name, a.port, if a.out then 'W' else 'R', a.size, Printed(a),
           if a.rip != 0 then Some(a.rip) else None)
  }

  function LineGroups(a: Access): Groups
    requires Printable(a)
  {
    Groups(Time(a), a.name, Padded(a.port, 4, Sixteen), if a.out then 'W' else 'R', Digits(a.size, Ten),
           Padded(Printed(a), 2 * a.size, Sixteen), if a.rip != 0 then Some(Padded(a.rip, 16, Sixteen)) else None)
  }

  lemma TimeOk(a: Access)
    ensures Timestamp(Time(a))
  {
    var d := Digits(a.sec, Ten);
    var t := Time(a);
    assert t[..|d|] == d && t[|d|] == '.' && t[|d| + 1..] == Padded(a.usec, 6, Ten);
  }

  lemma LineGroupsOk(a: Access)
    requires Printable(a)
    ensures GroupsOk(LineGroups(a))
  {
    TimeOk(a);
    hide Digits, Padded, Printed, Timestamp, Time, Number, Token;
  }

  /** The white space of the printed line. */
  function LineGaps(a: Access): (gaps: seq<string>)
    ensures |gaps| == (if a.rip == 0 then 5 else 6) && Gaps(gaps)
  {
    assert Blank(" ") && Blank("\n") && Blank(Spaces(11 - |a.name|) + " ");
    [" ", Spaces(11 - |a.name|) + " ", " ", " "] + if a.rip == 0 then ["\n"] else [" ", "\n"]
  }

  lemma LineJoined(a: Access)
    requires Printable(a)
    ensures |WordsOf(LineGroups(a))| == |LineGaps(a)| && Line(a) == Joined(WordsOf(LineGroups(a)), LineGaps(a))
  {
    hide Digits, Padded, Printed, Time, Field, Joined, Spaces, Token, Gaps;
    JoinAll(WordsOf(LineGroups(a)), LineGaps(a));
  }

  lemma LineMatches(a: Access)
    requires Printable(a)
    ensures GroupsOk(LineGroups(a)) && Matches(Line(a), LineGroups(a))
  {
    hide GroupsOk, WordsOf, LineGroups, LineGaps, Line, Joined, Gaps;
    LineGroupsOk(a);
    LineJoined(a);
  }

  lemma JoinAll(ws: seq<string>, gaps: seq<string>)
    requires |ws| == |gaps| && 5 <= |ws| <= 6
    ensures Joined(ws, gaps) ==
            Field(ws[0], gaps[0], Field(ws[1], gaps[1], Field(ws[2], gaps[2], Field(ws[3], gaps[3],
            if |ws| == 5 then Field(ws[4], gaps[4], "") else Field(ws[4], gaps[4], Field(ws[5], gaps[5], ""))))))
  {
    hide Field;
    JoinLast(ws[3..], gaps[3..]);
    assert ws[3..][1] == ws[4] && gaps[3..][1] == gaps[4];
    assert ws[1..][1..] == ws[2..] && ws[2..][1..] == ws[3..];
    assert gaps[1..][1..] == gaps[2..] && gaps[2..][1..] == gaps[3..];
    assert Joined(ws[2..], gaps[2..]) == Field(ws[2], gaps[2], Joined(ws[3..], gaps[3..]));
    assert Joined(ws[1..], gaps[1..]) == Field(ws[1], gaps[1], Joined(ws[2..], gaps[2..]));
  }

  lemma JoinLast(ws: seq<string>, gaps: seq<string>)
    requires |ws| == |gaps| && 2 <= |ws| <= 3
    ensures Joined(ws, gaps) ==
            Field(ws[0], gaps[0],
            if |ws| == 2 then Field(ws[1], gaps[1], "") else Field(ws[1], gaps[1], Field(ws[2], gaps[2], "")))
  {
    hide Field;
    assert ws[1..][1..] == ws[2..] && gaps[1..][1..] == gaps[2..];
    assert Joined(ws[1..], gaps[1..]) == Field(ws[1], gaps[1], Joined(ws[2..], gaps[2..]));
    if |ws| == 3 {
      assert ws[2..][1..] == [];
      assert Joined(ws[2..], gaps[2..]) == Field(ws[2], gaps[2], "");
    }
  }

  /** The trace round trip: every line that can be printed for a nonempty device name without
      white space parses back to the same time, device, port, direction and size, the
      little-endian value, and the RIP, absent exactly when it was zero. */
  lemma TraceRoundTrip(a: Access, line: nat)
    requires Printable(a)
    ensures Parse(Line(a)).Some? && GroupsOk(Parse(Line(a)).value)
    ensures ToRecord(line, Parse(Line(a)).value) == Logged(a, line)
  {
    var g := LineGroups(a);
    LineMatches(a);
    ParseIsPattern(Line(a), g);
    PaddedValue(a.port, 4, Sixteen);
    DigitsValue(a.size, Ten);
    PaddedValue(Printed(a), 2 * a.size, Sixteen);
    PaddedValue(a.rip, 16, Sixteen);
    hide Parse, Line, Padded, Digits, Value, Printed, Time;
  }

  /* ---------------------------------------------------------------- */
  /* The loader                                                        */
  /* ---------------------------------------------------------------- */

  /** What `load` makes of the first lines of a file. */
  function Loaded(lines: seq<string>): (seq<Record>, nat) {
    if lines == [] then ([], 0)
    else
      var (recs, bad) := Loaded(lines[..|lines| - 1]);
      match Parse(lines[|lines| - 1])
      case Some(g) => ParseOk(lines[|lines| - 1]); (recs + [ToRecord(|lines|, g)], bad)
      case None => (recs, if Blank(lines[|lines| - 1]) then bad else bad + 1)
  }

  lemma ParseOk(line: string)
    requires Parse(line).Some?
    ensures GroupsOk(Parse(line).value)
  {
  }

  /** `load`: records with their line numbers, and the count of lines skipped. */
  method Load(lines: seq<string>) returns (recs: seq<Record>, bad: nat)
    ensures (recs, bad) == Loaded(lines)
  {
    hide Parse;
    recs, bad := [], 0;
    var i := 0;
    while i < |lines|
      invariant i <= |lines| && (recs, bad) == Loaded(lines[..i])
    {
      assert lines[..i + 1][..i] == lines[..i];
      match Parse(lines[i]) {
        case Some(g) =>
          ParseOk(lines[i]);
          recs := recs + [ToRecord(i + 1, g)];
        case None =>
          if !Blank(lines[i]) {
            bad := bad + 1;
          }
      }
      i := i + 1;
    }
    assert lines[..i] == lines;
  }

  predicate AllPrintable(accesses: seq<Access>) {
    forall i :: 0 <= i < |accesses| ==> Printable(accesses[i])
  }

  /** The file the accesses leave behind, line by line. */
  function Lines(accesses: seq<Access>): (r: seq<string>)
    requires AllPrintable(accesses)
    ensures |r| == |accesses| && forall i :: 0 <= i < |r| ==> r[i] == Line(accesses[i])
  {
    seq(|accesses|, i requires 0 <= i < |accesses| => Line(accesses[i]))
  }

  function AllLogged(accesses: seq<Access>): (r: seq<Record>)
    requires AllPrintable(accesses)
    ensures |r| == |accesses| && forall i :: 0 <= i < |r| ==> r[i] == Logged(accesses[i], i + 1)
  {
    seq(|accesses|, i requires 0 <= i < |accesses| => Logged(accesses[i], i + 1))
  }

  /** A trace of accesses loads as one record per access, in order, with nothing skipped. */
  lemma {:induction false} LoadRoundTrip(accesses: seq<Access>)
    requires AllPrintable(accesses)
    ensures Loaded(Lines(accesses)) == (AllLogged(accesses), 0)
    decreases |accesses|
  {
    hide Parse, Line, ToRecord, Logged, Printable;
    if accesses != [] {
      var k := |accesses| - 1;
      LoadRoundTrip(accesses[..k]);
      TraceRoundTrip(accesses[k], k + 1);
      assert Lines(accesses)[..k] == Lines(accesses[..k]);
      assert AllLogged(accesses) == AllLogged(accesses[..k]) + [Logged(accesses[k], k + 1)];
    } else {
      assert AllLogged(accesses) == [];
    }
  }
}

/**
  The policy file: how the dynamic policy is printed and how it is read back. Reading follows
  fgets with a 256-byte buffer and sscanf with "%63s %u", on any text, NUL bytes included.
 */
module PolicyFile {
  import opened Common

  const MIB: int := 1024 * 1024

  /** The seven settings the file carries. */
  datatype Config = Config(qpPerProcess: nat, globalQp: nat, mrPerProcess: nat, globalMr: nat,
                           memory: nat, autoAdjust: bool, interval: nat)

  ghost predicate InRange(c: Config) {
    && c.qpPerProcess < TWO32 && c.globalQp < TWO32 && c.mrPerProcess < TWO32 && c.globalMr < TWO32
    && c.memory < TWO64 && c.interval < TWO32
  }

  // ----- Printing -----

  function Digits(n: nat): string {
    if n < 10 then [DigitChar(n)] else Digits(n / 10) + [DigitChar(n % 10)]
  }

  function DigitChar(d: nat): char
    requires d < 10
  {
    '0' + d as char
  }

  const HEADER := "# RDMA Dynamic Policy Configuration"

  function Line(key: string, v: nat): string { key + " " + Digits(v) + "\n" }

  type Setting = (string, nat)

  function Lines(es: seq<Setting>): string {
    if es == [] then "" else Line(es[0].0, es[0].1) + Lines(es[1..])
  }

  /** What is printed, in order. */
  function Settings(c: Config): (es: seq<Setting>)
    ensures |es| == 7
  {
    [("max_qp_per_process", c.qpPerProcess),
     ("max_global_qp", c.globalQp),
     ("max_mr_per_process", c.mrPerProcess),
     ("max_global_mr", c.globalMr),
     ("max_memory_mb", c.memory / MIB),
     ("auto_adjust", if c.autoAdjust then 1 else 0),
     ("adjust_interval", c.interval)]
  }

  /** dynamic_policy_save_config. */
  function Save(c: Config): string { HEADER + "\n" + Lines(Settings(c)) }

  // ----- Reading -----

  predicate IsSpace(c: char) { c == ' ' || 9 <= c as int <= 13 }
  predicate IsDigit(c: char) { '0' <= c <= '9' }

  function SkipSpace(s: string): string {
    if s == "" || !IsSpace(s[0]) then s else SkipSpace(s[1..])
  }

  /** The longest run of at most max characters without white space. */
  function Word(s: string, max: nat): (w: string)
    ensures |w| <= |s|
  {
    if s == "" || IsSpace(s[0]) || max == 0 then "" else [s[0]] + Word(s[1..], max - 1)
  }

  function Numeral(s: string): string {
    if s == "" || !IsDigit(s[0]) then "" else [s[0]] + Numeral(s[1..])
  }

  function Value(ds: string): nat
    requires forall i :: 0 <= i < |ds| ==> IsDigit(ds[i])
  {
    if ds == "" then 0
    else
      var d := ds[|ds| - 1];
      assert IsDigit(d);
      10 * Value(ds[..|ds| - 1]) + (d as int - '0' as int)
  }

  /** A number as strtoul takes it, saturating at 64 bits and negated if there was a minus, and then cut to
      32 bits. */
  function Converted(n: nat, negative: bool): nat {
    U32(if n >= TWO64 then TWO64 - 1 else if negative then U64(-(n as int)) else n)
  }

  /** What %u stores for an optional sign and digits. */
  function Unsigned(s: string): Option<nat> {
    var signed := s != "" && (s[0] == '-' || s[0] == '+');
    var ds := Numeral(if signed then s[1..] else s);
    NumeralIsDigits(if signed then s[1..] else s);
    if ds == "" then None else Some(Converted(Value(ds), signed && s[0] == '-'))
  }

  lemma {:induction false} NumeralIsDigits(s: string)
    ensures forall i :: 0 <= i < |Numeral(s)| ==> IsDigit(Numeral(s)[i])
  {
    if s != "" && IsDigit(s[0]) {
      NumeralIsDigits(s[1..]);
    }
  }

  /** The string a C function sees in a buffer: up to the first NUL. */
  function CString(s: string): string {
    if s == "" || s[0] == '\0' then "" else [s[0]] + CString(s[1..])
  }

  lemma {:induction false} NoNul(s: string)
    requires forall i :: 0 <= i < |s| ==> s[i] != '\0'
    ensures CString(s) == s
  {
    if s != "" {
      NoNul(s[1..]);
    }
  }

  /** sscanf(line, "%63s %u"), when it converts both. */
  function ScanLine(line: string): Option<(string, nat)> {
    var s := SkipSpace(CString(line));
    var key := Word(s, 63);
    if key == "" then None
    else
      var v := Unsigned(SkipSpace(s[|key|..]));
      if v.None? then None else Some((key, v.value))
  }

  function Set(c: Config, key: string, v: nat): Config {
    if key == "max_qp_per_process" then c.(qpPerProcess := v)
    else if key == "max_global_qp" then c.(globalQp := v)
    else if key == "max_mr_per_process" then c.(mrPerProcess := v)
    else if key == "max_global_mr" then c.(globalMr := v)
    else if key == "max_memory_mb" then c.(memory := v * MIB)
    else if key == "auto_adjust" then c.(autoAdjust := v != 0)
    else if key == "adjust_interval" then c.(interval := v)
    else c
  }

  function ApplyLine(c: Config, line: string): Config {
    if line == "" || line[0] == '#' || line[0] == '\n' then c
    else
      var kv := ScanLine(line);
      if kv.None? then c else Set(c, kv.value.0, kv.value.1)
  }

  /** How much fgets takes: up to and including a newline, and no more than max characters. */
  function Taken(text: string, max: nat): (n: nat)
    ensures n <= |text|
    ensures text != "" && max > 0 ==> n > 0
  {
    if text == "" || max == 0 then 0
    else if text[0] == '\n' then 1
    else 1 + Taken(text[1..], max - 1)
  }

  /** dynamic_policy_load_config on the text of the file. */
  function Load(c: Config, text: string): Config
    decreases |text|
  {
    if text == "" then c
    else
      var n := Taken(text, 255);
      Load(ApplyLine(c, text[..n]), text[n..])
  }

  // ----- Numbers read back -----

  lemma {:induction false} DigitsRead(n: nat)
    ensures Digits(n) != "" && forall i :: 0 <= i < |Digits(n)| ==> IsDigit(Digits(n)[i])
    ensures Value(Digits(n)) == n
  {
    if n < 10 {
      assert Digits(n)[..0] == "";
    } else {
      DigitsRead(n / 10);
      var ds := Digits(n);
      assert ds[..|ds| - 1] == Digits(n / 10);
    }
  }

  function Pow10(k: nat): nat { if k == 0 then 1 else 10 * Pow10(k - 1) }

  lemma TwentyDigits()
    ensures Pow10(20) > TWO64
  {
    FourMore(0);
    FourMore(4);
    FourMore(8);
    FourMore(12);
    FourMore(16);
  }

  lemma FourMore(k: nat)
    ensures Pow10(k + 4) == 10000 * Pow10(k)
  {
    assert Pow10(k + 4) == 10 * Pow10(k + 3) && Pow10(k + 3) == 10 * Pow10(k + 2);
    assert Pow10(k + 2) == 10 * Pow10(k + 1);
  }

  lemma {:induction false} DigitsLength(n: nat, k: nat)
    requires k > 0 && n < Pow10(k)
    ensures |Digits(n)| <= k
  {
    if n >= 10 {
      DigitsLength(n / 10, k - 1);
    }
  }

  lemma {:induction false} NumeralStops(ds: string, rest: string)
    requires forall i :: 0 <= i < |ds| ==> IsDigit(ds[i])
    requires rest == "" || !IsDigit(rest[0])
    ensures Numeral(ds + rest) == ds
  {
    if ds == "" {
      assert ds + rest == rest;
    } else {
      NumeralStops(ds[1..], rest);
      assert (ds + rest)[1..] == ds[1..] + rest;
    }
  }

  /** A printed number below 2^64 is read back cut to 32 bits. */
  lemma NumberReadBack(n: nat)
    requires n < TWO64
    ensures Unsigned(Digits(n) + "\n") == Some(n % TWO32)
  {
    DigitsRead(n);
    NumeralStops(Digits(n), "\n");
    assert (Digits(n) + "\n")[0] == Digits(n)[0];
  }

  /** The unsigned 32-bit number that stands for an integer, if its size fits in 64 bits; else the largest. */
  function Stored(v: int): nat { if -TWO64 < v < TWO64 then U32(v) else TWO32 - 1 }

  lemma SignedNumber(sign: char, n: nat)
    requires sign == '-' || sign == '+'
    ensures Unsigned([sign] + Digits(n) + "\n") == Some(Stored(if sign == '-' then -(n as int) else n))
  {
    DigitsRead(n);
    NumeralStops(Digits(n), "\n");
    var s := [sign] + Digits(n) + "\n";
    assert s[0] == sign && s[1..] == Digits(n) + "\n";
    ConvertedMeans(n);
  }

  lemma ConvertedMeans(n: nat)
    ensures Converted(n, false) == Stored(n) && Converted(n, true) == Stored(-(n as int))
  {
    CutTwice(-(n as int));
  }

  lemma CutTwice(v: int)
    ensures U32(U64(v)) == U32(v)
  {
    var r := U64(v);
    SameRemainder(v / TWO32, U32(v), TWO32 * (v / TWO64) + r / TWO32, U32(r));
  }

  lemma SameRemainder(a: int, x: nat, b: int, y: nat)
    requires x < TWO32 && y < TWO32 && TWO32 * a + x == TWO32 * b + y
    ensures x == y
  {
  }

  /**
    Any decimal number with any sign: a negative one is taken modulo 2^32, and one that does not fit in
    64 bits as 2^32 - 1, whatever its sign.
   */
  lemma AnyNumberRead(n: nat)
    ensures Unsigned(Digits(n) + "\n") == Some(Stored(n))
    ensures Unsigned("+" + Digits(n) + "\n") == Some(Stored(n))
    ensures Unsigned("-" + Digits(n) + "\n") == Some(Stored(-(n as int)))
  {
    DigitsRead(n);
    NumeralStops(Digits(n), "\n");
    assert (Digits(n) + "\n")[0] == Digits(n)[0];
    ConvertedMeans(n);
    SignedNumber('+', n);
    SignedNumber('-', n);
  }

  // ----- Lines read back -----

  ghost predicate IsKey(key: string) {
    1 <= |key| <= 63 && key[0] != '#' && forall i :: 0 <= i < |key| ==> !IsSpace(key[i]) && key[i] != '\0'
  }

  lemma {:induction false} WordStops(key: string, rest: string, max: nat)
    requires |key| <= max && rest != "" && IsSpace(rest[0])
    requires forall i :: 0 <= i < |key| ==> !IsSpace(key[i])
    ensures Word(key + rest, max) == key
  {
    if key == "" {
      assert key + rest == rest;
    } else {
      WordStops(key[1..], rest, max - 1);
      assert (key + rest)[1..] == key[1..] + rest;
    }
  }

  lemma LineScanned(key: string, v: nat)
    requires IsKey(key) && v < TWO64
    ensures ScanLine(Line(key, v)) == Some((key, v % TWO32))
  {
    DigitsRead(v);
    var tail := " " + Digits(v) + "\n";
    var line := Line(key, v);
    assert line == key + tail && line[0] == key[0];
    NoNul(line);
    WordStops(key, tail, 63);
    assert line[|key|..] == tail;
    var num := Digits(v) + "\n";
    assert tail[1..] == num && num[0] == Digits(v)[0];
    assert SkipSpace(tail) == num;
    NumberReadBack(v);
  }

  lemma {:induction false} TakenStops(p: string, rest: string, max: nat)
    requires |p| < max && forall i :: 0 <= i < |p| ==> p[i] != '\n'
    ensures Taken(p + "\n" + rest, max) == |p| + 1
  {
    if p == "" {
      assert (p + "\n" + rest)[0] == '\n';
    } else {
      TakenStops(p[1..], rest, max - 1);
      assert (p + "\n" + rest)[1..] == p[1..] + "\n" + rest;
    }
  }

  /** A printed line sets its key and leaves the rest of the file to be read. */
  lemma LineLoaded(c: Config, key: string, v: nat, rest: string)
    requires IsKey(key) && v < TWO64
    ensures Load(c, Line(key, v) + rest) == Load(Set(c, key, v % TWO32), rest)
  {
    DigitsRead(v);
    TwentyDigits();
    DigitsLength(v, 20);
    var p := key + " " + Digits(v);
    var text := Line(key, v) + rest;
    assert text == p + "\n" + rest;
    TakenStops(p, rest, 255);
    assert text[..|p| + 1] == Line(key, v) && text[|p| + 1..] == rest;
    assert Line(key, v)[0] == key[0];
    LineScanned(key, v);
  }

  /** The keys in the order in which they are printed. */
  const KEYS: seq<string> := ["max_qp_per_process", "max_global_qp", "max_mr_per_process", "max_global_mr",
                              "max_memory_mb", "auto_adjust", "adjust_interval"]

  /** The file lists every key once, in this order. */
  lemma KeysInOrder(c: Config, i: nat)
    requires i < 7
    ensures Settings(c)[i].0 == KEYS[i]
  {
  }

  lemma SetUnknown(c: Config, key: string, v: nat)
    requires forall i :: 0 <= i < 7 ==> key != KEYS[i]
    ensures Set(c, key, v) == c
  {
    assert key != KEYS[0] && key != KEYS[1] && key != KEYS[2] && key != KEYS[3];
    assert key != KEYS[4] && key != KEYS[5] && key != KEYS[6];
  }

  /** A line with a key that the policy does not know changes nothing. */
  lemma UnknownKeyIgnored(c: Config, key: string, v: nat, rest: string)
    requires IsKey(key) && v < TWO64 && key !in KEYS
    ensures Load(c, Line(key, v) + rest) == Load(c, rest)
  {
    LineLoaded(c, key, v, rest);
    assert forall i :: 0 <= i < 7 ==> KEYS[i] in KEYS;
    SetUnknown(c, key, v % TWO32);
  }

  /** A comment of any text that fits the buffer is skipped. */
  lemma CommentSkipped(c: Config, text: string, rest: string)
    requires |text| <= 253 && forall i :: 0 <= i < |text| ==> text[i] != '\n'
    ensures Load(c, "#" + text + "\n" + rest) == Load(c, rest)
  {
    var p := "#" + text;
    TakenStops(p, rest, 255);
    var all := "#" + text + "\n" + rest;
    assert all == p + "\n" + rest;
    assert all[..|p| + 1] == p + "\n" && all[|p| + 1..] == rest && (p + "\n")[0] == '#';
  }

  lemma {:induction false} TakenFull(text: string, max: nat)
    requires max <= |text| && forall i :: 0 <= i < max ==> text[i] != '\n'
    ensures Taken(text, max) == max
  {
    if max > 0 {
      TakenFull(text[1..], max - 1);
    }
  }

  /** A line that does not fit the buffer is read in pieces of 255 characters, each by itself: of a long
      comment, what follows the first piece is read as if it were a line of its own. */
  lemma LongCommentLeaks(c: Config, text: string, rest: string)
    requires |text| == 254 && forall i :: 0 <= i < |text| ==> text[i] != '\n'
    ensures Load(c, "#" + text + rest) == Load(c, rest)
  {
    var p := "#" + text;
    var all := "#" + text + rest;
    assert all == p + rest && all[..255] == p && all[255..] == rest && p[0] == '#';
    assert forall i :: 0 <= i < 255 ==> all[i] == p[i];
    TakenFull(all, 255);
  }

  lemma {:induction false} WordCut(s: string, max: nat)
    requires max <= |s| && forall i :: 0 <= i < max ==> !IsSpace(s[i])
    ensures Word(s, max) == s[..max]
  {
    if max > 0 {
      WordCut(s[1..], max - 1);
      assert s[..max] == [s[0]] + s[1..][..max - 1];
    }
  }

  /** A word is cut after 63 characters: digits that follow without a space are its value. */
  lemma LongWordCut(key: string, n: nat)
    requires |key| == 63 && n < TWO64 && forall i :: 0 <= i < |key| ==> !IsSpace(key[i]) && key[i] != '\0'
    ensures ScanLine(key + (Digits(n) + "\n")) == Some((key, n % TWO32))
  {
    DigitsRead(n);
    var num := Digits(n) + "\n";
    NoNul(key + num);
    FirstIsKey(key, num);
    assert num[0] == Digits(n)[0];
    assert SkipSpace(num) == num;
    NumberReadBack(n);
  }

  lemma FirstIsKey(key: string, rest: string)
    requires |key| == 63 && forall i :: 0 <= i < |key| ==> !IsSpace(key[i])
    ensures SkipSpace(key + rest) == key + rest && Word(key + rest, 63) == key && (key + rest)[63..] == rest
  {
    var line := key + rest;
    assert line[0] == key[0];
    assert forall i :: 0 <= i < 63 ==> line[i] == key[i];
    WordCut(line, 63);
    assert line[..63] == key;
  }

  /** What follows a NUL in a line is not read. */
  lemma NulEndsLine(line: string, tail: string)
    requires forall i :: 0 <= i < |line| ==> line[i] != '\0'
    ensures ScanLine(line + "\0" + tail) == ScanLine(line)
  {
    NoNul(line);
    CutAtNul(line, tail);
  }

  lemma {:induction false} CutAtNul(line: string, tail: string)
    requires forall i :: 0 <= i < |line| ==> line[i] != '\0'
    ensures CString(line + "\0" + tail) == line
  {
    if line == "" {
      assert (line + "\0" + tail)[0] == '\0';
    } else {
      CutAtNul(line[1..], tail);
      assert (line + "\0" + tail)[1..] == line[1..] + "\0" + tail;
    }
  }

  /** Blank, tab, newline, vertical tab, form feed and carriage return. */
  const BLANKS: seq<char> := [' ', '\t', '\n', 11 as char, 12 as char, '\r']

  lemma {:induction false} SpaceSkipped(w: string, rest: string)
    requires (forall i :: 0 <= i < |w| ==> w[i] in BLANKS) && (rest != "" ==> !IsSpace(rest[0]))
    ensures SkipSpace(w + rest) == rest
  {
    if w == "" {
      assert w + rest == rest;
    } else {
      assert w[0] in BLANKS;
      SpaceSkipped(w[1..], rest);
      assert (w + rest)[1..] == w[1..] + rest;
    }
  }

  /** Any white space may stand before the key and, if there is some, between key and number. */
  lemma AnySpaceSeparates(before: string, key: string, between: string, v: nat)
    requires IsKey(key) && v < TWO64 && between != ""
    requires forall i :: 0 <= i < |before| ==> before[i] in BLANKS
    requires forall i :: 0 <= i < |between| ==> between[i] in BLANKS
    ensures ScanLine(before + (key + (between + (Digits(v) + "\n")))) == Some((key, v % TWO32))
  {
    var num := Digits(v) + "\n";
    var tail := between + num;
    var rest := key + tail;
    DigitsRead(v);
    NoNul(before + rest);
    assert num[0] == Digits(v)[0] && rest[0] == key[0] && tail[0] == between[0] && between[0] in BLANKS;
    SpaceSkipped(before, rest);
    WordStops(key, tail, 63);
    assert rest[|key|..] == tail;
    SpaceSkipped(between, num);
    NumberReadBack(v);
  }

  lemma HeaderSkipped(c: Config, rest: string)
    ensures Load(c, HEADER + "\n" + rest) == Load(c, rest)
  {
    var text := HEADER + "\n" + rest;
    TakenStops(HEADER, rest, 255);
    assert text[..|HEADER| + 1] == HEADER + "\n" && text[|HEADER| + 1..] == rest;
    assert (HEADER + "\n")[0] == '#';
  }

  lemma QpAndMrKeys()
    ensures IsKey("max_qp_per_process") && IsKey("max_global_qp")
    ensures IsKey("max_mr_per_process") && IsKey("max_global_mr")
  {
  }

  lemma OtherKeys()
    ensures IsKey("max_memory_mb") && IsKey("auto_adjust") && IsKey("adjust_interval")
  {
  }

  // ----- The round trip -----

  /** The settings applied one after the other, each cut to 32 bits. */
  function SetAll(c: Config, es: seq<Setting>): Config
    decreases es
  {
    if es == [] then c else SetAll(Set(c, es[0].0, es[0].1 % TWO32), es[1..])
  }

  ghost predicate Printable(es: seq<Setting>) {
    forall i :: 0 <= i < |es| ==> IsKey(es[i].0) && es[i].1 < TWO64
  }

  lemma {:induction false} LinesLoaded(c: Config, es: seq<Setting>)
    requires Printable(es)
    ensures Load(c, Lines(es)) == SetAll(c, es)
    decreases es
  {
    if es != [] {
      LineLoaded(c, es[0].0, es[0].1, Lines(es[1..]));
      LinesLoaded(Set(c, es[0].0, es[0].1 % TWO32), es[1..]);
    }
  }

  lemma SettingsPrintable(c: Config)
    requires InRange(c)
    ensures Printable(Settings(c))
  {
    QpAndMrKeys();
    OtherKeys();
  }

  /** Every key sets its own field. */
  lemma KeysSet(c: Config, v: nat)
    ensures Set(c, "max_qp_per_process", v) == c.(qpPerProcess := v)
    ensures Set(c, "max_global_qp", v) == c.(globalQp := v)
    ensures Set(c, "max_mr_per_process", v) == c.(mrPerProcess := v)
    ensures Set(c, "max_global_mr", v) == c.(globalMr := v)
    ensures Set(c, "max_memory_mb", v) == c.(memory := v * MIB)
    ensures Set(c, "auto_adjust", v) == c.(autoAdjust := v != 0)
    ensures Set(c, "adjust_interval", v) == c.(interval := v)
  {
    assert "max_qp_per_process"[4] != "max_mr_per_process"[4];
    assert "max_global_qp"[11] != "max_global_mr"[11];
    assert "max_global_qp"[4] != "max_memory_mb"[4];
    assert "max_global_mr"[4] != "max_memory_mb"[4];
  }

  lemma SetAllStep(c: Config, es: seq<Setting>, i: nat)
    requires i < |es|
    ensures SetAll(c, es[i..]) == SetAll(Set(c, es[i].0, es[i].1 % TWO32), es[i + 1..])
  {
    assert es[i..][1..] == es[i + 1..];
  }

  /** c with the i-th setting taken from x. */
  function With(c: Config, x: Config, i: nat): Config {
    match i
    case 0 => c.(qpPerProcess := x.qpPerProcess)
    case 1 => c.(globalQp := x.globalQp)
    case 2 => c.(mrPerProcess := x.mrPerProcess)
    case 3 => c.(globalMr := x.globalMr)
    case 4 => c.(memory := (x.memory / MIB % TWO32) * MIB)
    case 5 => c.(autoAdjust := x.autoAdjust)
    case _ => c.(interval := x.interval)
  }

  lemma OneSet(c: Config, x: Config, i: nat)
    requires InRange(x) && i < 7
    ensures Set(c, Settings(x)[i].0, Settings(x)[i].1 % TWO32) == With(c, x, i)
  {
    KeysSet(c, Settings(x)[i].1 % TWO32);
  }

  lemma {:induction false} SettingsSet(c: Config, x: Config, i: nat)
    requires InRange(x) && i <= 7
    ensures SetAll(c, Settings(x)[i..]) == WithAll(c, x, i)
    decreases 7 - i
  {
    if i < 7 {
      SetAllStep(c, Settings(x), i);
      OneSet(c, x, i);
      SettingsSet(With(c, x, i), x, i + 1);
    }
  }

  /** c with the settings from the i-th on taken from x. */
  function WithAll(c: Config, x: Config, i: nat): Config
    requires i <= 7
    decreases 7 - i
  {
    if i == 7 then c else WithAll(With(c, x, i), x, i + 1)
  }

  lemma AllTaken(c: Config, x: Config)
    ensures WithAll(c, x, 0) == Carried(x)
  {
    var c1 := With(c, x, 0);
    var c2 := With(c1, x, 1);
    var c3 := With(c2, x, 2);
    var c4 := With(c3, x, 3);
    var c5 := With(c4, x, 4);
    var c6 := With(c5, x, 5);
    assert WithAll(c, x, 0) == WithAll(c2, x, 2);
    assert WithAll(c2, x, 2) == WithAll(c4, x, 4);
    assert WithAll(c4, x, 4) == WithAll(c6, x, 6);
    assert WithAll(c6, x, 6) == WithAll(With(c6, x, 6), x, 7);
  }

  /** A configuration as the file can carry it: memory in whole MiB, of which it keeps 32 bits. */
  function Carried(c: Config): Config { c.(memory := (c.memory / 1048576 % TWO32) * 1048576) }

  /**
    Loading what was saved, over any current configuration, restores the two QP limits, the two MR
    limits, auto_adjust and adjust_interval exactly, and memory rounded down to a MiB with the MiB
    count cut to 32 bits.
   */
  lemma PolicyRoundTrip(c0: Config, c: Config)
    requires InRange(c)
    ensures Load(c0, Save(c)) == Carried(c)
  {
    HeaderSkipped(c0, Lines(Settings(c)));
    SettingsPrintable(c);
    LinesLoaded(c0, Settings(c));
    assert Settings(c)[0..] == Settings(c);
    SettingsSet(c0, c, 0);
    AllTaken(c0, c);
  }

  lemma DigitsInjective(a: nat, b: nat)
    requires Digits(a) == Digits(b)
    ensures a == b
  {
    DigitsRead(a);
    DigitsRead(b);
  }

  lemma Between(pre: string, x: string, y: string, post: string)
    requires pre + (x + post) == pre + (y + post)
    ensures x == y
  {
    assert |x| == |y|;
    assert x == (pre + (x + post))[|pre|..|pre| + |x|];
    assert y == (pre + (y + post))[|pre|..|pre| + |y|];
  }

  /**
    Saving again what was loaded prints the same file, and the memory limit comes back as what the
    file says, if and only if the limit is below 2^32 MiB; above that the count is cut.
   */
  lemma SecondSaveIdentical(c0: Config, c: Config)
    requires InRange(c)
    ensures Save(Load(c0, Save(c))) == Save(c) <==> c.memory / 1048576 < TWO32
    ensures Load(c0, Save(c)).memory == c.memory / 1048576 * 1048576 <==> c.memory / 1048576 < TWO32
  {
    PolicyRoundTrip(c0, c);
    var c' := Carried(c);
    var a := c.memory / MIB;
    assert c'.memory / MIB == a % TWO32;
    if a < TWO32 {
      assert Settings(c') == Settings(c);
    }
    if Save(c') == Save(c) {
      SameFileSameMemory(c, c');
    }
  }

  lemma {:induction false} LinesConcat(a: seq<Setting>, b: seq<Setting>)
    ensures Lines(a + b) == Lines(a) + Lines(b)
  {
    if a == [] {
      assert a + b == b;
    } else {
      LinesConcat(a[1..], b);
      assert (a + b)[1..] == a[1..] + b;
      Assoc(Line(a[0].0, a[0].1), Lines(a[1..]), Lines(b));
    }
  }

  lemma Assoc(x: string, y: string, z: string)
    ensures x + (y + z) == x + y + z
  {
  }

  lemma SameFileSameMemory(c: Config, c': Config)
    requires Save(c') == Save(c) && c' == c.(memory := c'.memory)
    ensures c'.memory / MIB == c.memory / MIB
  {
    var es, es' := Settings(c), Settings(c');
    var key := "max_memory_mb";
    var a, b := c.memory / MIB, c'.memory / MIB;
    SaveSplits(c);
    SaveSplits(c');
    assert es'[..4] == es[..4] && es'[5..] == es[5..];
    Between(HEADER + "\n" + Lines(es[..4]), Line(key, a), Line(key, b), Lines(es[5..]));
    assert key + " " + Digits(a) + "\n" == (key + " ") + (Digits(a) + "\n");
    assert key + " " + Digits(b) + "\n" == (key + " ") + (Digits(b) + "\n");
    Between(key + " ", Digits(a), Digits(b), "\n");
    DigitsInjective(a, b);
  }

  lemma SaveSplits(c: Config)
    ensures var es := Settings(c);
      Save(c) == HEADER + "\n" + Lines(es[..4]) + (Line("max_memory_mb", c.memory / MIB) + Lines(es[5..]))
  {
    var es := Settings(c);
    assert es == es[..4] + ([es[4]] + es[5..]);
    LinesAround(es[..4], es[4], es[5..]);
    Assoc(HEADER + "\n", Lines(es[..4]), Line(es[4].0, es[4].1) + Lines(es[5..]));
  }

  lemma LinesAround(pre: seq<Setting>, e: Setting, post: seq<Setting>)
    ensures Lines(pre + ([e] + post)) == Lines(pre) + (Line(e.0, e.1) + Lines(post))
  {
    LinesConcat(pre, [e] + post);
    LinesFirst(e, post);
  }

  lemma LinesFirst(e: Setting, rest: seq<Setting>)
    ensures Lines([e] + rest) == Line(e.0, e.1) + Lines(rest)
  {
    assert ([e] + rest)[1..] == rest;
  }

  // ----- The policy in memory -----

  class PolicyManager {
    var config: Config

    constructor (config: Config)
      ensures this.config == config
    {
      this.config := config;
    }

    /** dynamic_policy_load_config, given what the file holds. */
    method LoadConfig(text: string)
      modifies this
      ensures config == Load(old(config), text)
    {
      var rest := text;
      while rest != ""
        invariant Load(config, rest) == Load(old(config), text)
        decreases |rest|
      {
        var n := Taken(rest, 255);
        var line := rest[..n];
        rest := rest[n..];
        if line[0] == '#' || line[0] == '\n' {
          continue;
        }
        var kv := ScanLine(line);
        if kv.Some? {
          config := Set(config, kv.value.0, kv.value.1);
        }
      }
    }

    /** dynamic_policy_save_config: what is printed. */
    method SaveConfig() returns (text: string)
      ensures text == Save(config)
    {
      text := HEADER + "\n";
      assert Settings(config)[..0] == [];
      text := PrintSetting(text, 0, "max_qp_per_process", config.qpPerProcess);
      text := PrintSetting(text, 1, "max_global_qp", config.globalQp);
      text := PrintSetting(text, 2, "max_mr_per_process", config.mrPerProcess);
      text := PrintSetting(text, 3, "max_global_mr", config.globalMr);
      text := PrintSetting(text, 4, "max_memory_mb", config.memory / MIB);
      text := PrintSetting(text, 5, "auto_adjust", if config.autoAdjust then 1 else 0);
      text := PrintSetting(text, 6, "adjust_interval", config.interval);
      assert Settings(config)[..7] == Settings(config);
    }

    /** One fprintf to the file. */
    method PrintSetting(text: string, ghost i: nat, key: string, v: nat) returns (more: string)
      requires i < 7 && Settings(config)[i] == (key, v)
      requires text == HEADER + "\n" + Lines(Settings(config)[..i])
      ensures more == HEADER + "\n" + Lines(Settings(config)[..i + 1])
    {
      more := text + Line(key, v);
      ghost var es := Settings(config);
      LinesConcat(es[..i], [(key, v)]);
      assert es[..i + 1] == es[..i] + [(key, v)];
      assert Lines([(key, v)]) == Line(key, v) + Lines([]);
      Assoc(HEADER + "\n", Lines(es[..i]), Line(key, v));
    }
  }
}

/** The `.loc` localisation files (core/JinjaEnvironmentManager.py): the
    character-level parser of `LocalizationScope.parse_file`, the English plural
    rule, the call of a parsed value, and the loading of a directory of scopes.
    Every `raise <number>` of the parser becomes a `Fault`. */
module Localization {
  import opened Wrappers
  import opened SeqUtil
  import Decimal

  predicate IsLetter(c: char) { 'A' <= c <= 'Z' || 'a' <= c <= 'z' }

  predicate IsAlnum(c: char) { Decimal.IsDigit(c) || IsLetter(c) }

  /** The parser's `spaces`: tab, space and newline (not carriage return). */
  predicate IsBlank(c: char) { c == '\t' || c == ' ' || c == '\n' }

  /** A part of a value: a quoted string, a `$NAME` parameter, or a plural block. */
  datatype Part = Text(value: string) | Param(name: string) | Plural(name: string, forms: seq<string>)

  /** Why parsing stopped: a character the current state has no branch for (state 11,
      after `/`, has none at all), a plural block closed with fewer than two forms, or
      a key defined twice. */
  datatype Fault = Unexpected(state: nat, symbol: char) | TooFewForms(name: string) | DuplicateKey(key: string)

  type Strings = map<string, seq<Part>>

  /** The parser's variables: `state`, `key`, the value's parts, `template_value_string`
      (`buf`), the plural block being read, and the finished `strings`. */
  datatype Parser = Parser(state: nat, key: string, parts: seq<Part>, buf: string,
                           pluralName: string, forms: seq<string>, strings: Strings)

  const Start := Parser(0, "", [], "", "", [], map[])

  /** The `;` of state 3: store the value under the key, unless the key is taken, and
      start afresh (the key itself is not cleared). */
  function Finalize(p: Parser): (r: Result<Parser, Fault>)
    ensures r.Err? <==> p.key in p.strings
    ensures r.Err? ==> r.error == DuplicateKey(p.key)
    ensures r.Ok? ==>
      (r.value.state == 0 && r.value.parts == [] && r.value.buf == ""
       && r.value.forms == [] && r.value.key == p.key && r.value.strings == p.strings[p.key := p.parts])
  {
    if p.key in p.strings then Err(DuplicateKey(p.key))
    else Ok(Parser(0, p.key, [], "", "", [], p.strings[p.key := p.parts]))
  }

  /** One character of `parse_file`. Only the `;` of state 3 stores a value; a fault
      names the state and the character, except for a plural block with too few
      forms and a key stored twice. State 11, after `/`, accepts nothing. */
  function Step(p: Parser, c: char): (r: Result<Parser, Fault>)
    ensures r.Ok? ==> r.value.state <= 11
    ensures r.Ok? ==> r.value.strings == p.strings || (p.state == 3 && c == ';' && r.value.strings == p.strings[p.key := p.parts])
    ensures r.Err? ==>
      r.error == Unexpected(p.state, c)
      || (p.state == 9 && c == '}' && |p.forms| < 2 && r.error == TooFewForms(p.pluralName))
      || (p.state == 3 && c == ';' && r.error == DuplicateKey(p.key))
    ensures p.state == 11 ==> r.Err?
  {
    match p.state
    case 0 =>
      if c == '/' then Ok(p.(state := 11))
      else if IsLetter(c) then Ok(p.(state := 1, key := [c]))
      else if IsBlank(c) then Ok(p)
      else Err(Unexpected(0, c))
    case 1 =>
      if IsAlnum(c) then Ok(p.(key := p.key + [c]))
      else if IsBlank(c) then Ok(p.(state := 2))
      else if c == '=' then Ok(p.(state := 3))
      else Err(Unexpected(1, c))
    case 2 =>
      if c == '=' then Ok(p.(state := 3))
      else if IsBlank(c) then Ok(p)
      else Err(Unexpected(2, c))
    case 3 =>
      if IsBlank(c) || c == '+' then Ok(p)
      else if c == '"' then Ok(p.(buf := "", state := 4))
      else if c == '$' then Ok(p.(buf := "", state := 5))
      else if c == '{' then Ok(p.(state := 6))
      else if c == ';' then Finalize(p)
      else Err(Unexpected(3, c))
    case 4 =>
      if c != '"' then Ok(p.(buf := p.buf + [c]))
      else Ok(p.(state := 3, parts := p.parts + [Text(p.buf)], buf := ""))
    case 5 =>
      if IsLetter(c) then Ok(p.(buf := p.buf + [c]))
      else if c == ' ' then Ok(p.(state := 3, parts := p.parts + [Param(p.buf)], buf := ""))
      else Err(Unexpected(5, c))
    case 6 =>
      if IsBlank(c) then Ok(p)
      else if IsLetter(c) then Ok(p.(buf := [c], state := 7))
      else Err(Unexpected(6, c))
    case 7 =>
      if IsLetter(c) then Ok(p.(buf := p.buf + [c]))
      else if IsBlank(c) then Ok(p.(pluralName := p.buf, forms := [], state := 8))
      else if c == ':' then Ok(p.(pluralName := p.buf, forms := [], state := 9))
      else Err(Unexpected(7, c))
    case 8 =>
      if IsBlank(c) then Ok(p)
      else if c == ':' then Ok(p.(state := 9))
      else Err(Unexpected(8, c))
    case 9 =>
      if IsBlank(c) then Ok(p)
      else if c == '"' then Ok(p.(buf := "", state := 10))
      else if c == '}' then
        if |p.forms| < 2 then Err(TooFewForms(p.pluralName)) else Ok(p.(state := 3))
      else Err(Unexpected(9, c))
    case 10 =>
      if c != '"' then Ok(p.(buf := p.buf + [c]))
      else Ok(p.(forms := p.forms + [p.buf], buf := "", state := 9))
    case _ => Err(Unexpected(p.state, c))
  }

  /** The characters of the file, in order, from a given parser. */
  function ParseFrom(p: Parser, text: string): Result<Parser, Fault>
    decreases |text|
  {
    if text == [] then Ok(p)
    else
      var q :- Step(p, text[0]);
      ParseFrom(q, text[1..])
  }

  /** `LocalizationScope(path).strings` for a file's text. Whatever is unfinished at
      the end of the file is dropped. Every parsed key is a letter followed by letters
      and digits, and every parsed value is made of quote-free strings and
      letters-only parameters: a plural block never reaches the value. */
  function Parse(text: string): (r: Result<Strings, Fault>)
    ensures r.Ok? ==> forall k | k in r.value :: ValidKey(k) && ValidValue(r.value[k])
  {
    match ParseFrom(Start, text)
    case Err(e) => Err(e)
    case Ok(p) => ParseKeepsGood(Start, text); Ok(p.strings)
  }

  /** Reading a first character, then the rest. */
  lemma {:induction false} ParseCons(p: Parser, c: char, rest: string)
    ensures ParseFrom(p, [c] + rest)
      == if Step(p, c).Err? then Err(Step(p, c).error) else ParseFrom(Step(p, c).value, rest)
  {
    assert ([c] + rest)[0] == c && ([c] + rest)[1..] == rest;
  }

  lemma {:induction false} ParseAppend(p: Parser, a: string, b: string)
    ensures ParseFrom(p, a + b)
      == if ParseFrom(p, a).Err? then Err(ParseFrom(p, a).error) else ParseFrom(ParseFrom(p, a).value, b)
    decreases |a|
  {
    if a == [] {
      assert a + b == b;
    } else {
      assert (a + b)[0] == a[0] && (a + b)[1..] == a[1..] + b;
      match Step(p, a[0])
      case Err(_) =>
      case Ok(q) => ParseAppend(q, a[1..], b);
    }
  }

  // ----------------------------------------------------------- what parses

  /** A key: a letter, then letters and digits. */
  predicate ValidKey(k: string) {
    |k| >= 1 && IsLetter(k[0]) && forall i | 0 <= i < |k| :: IsAlnum(k[i])
  }

  predicate AllLetters(s: string) { forall i | 0 <= i < |s| :: IsLetter(s[i]) }

  /** A part the parser can produce: a string without quotes or a letters-only name.
      Plural blocks are never added to a value. */
  predicate ValidPart(x: Part) {
    match x
    case Text(v) => '"' !in v
    case Param(n) => AllLetters(n)
    case Plural(_, _) => false
  }

  predicate ValidValue(ps: seq<Part>) { forall i | 0 <= i < |ps| :: ValidPart(ps[i]) }

  /** What holds of the parser between characters. */
  ghost predicate Good(p: Parser) {
    p.state <= 11
    && (forall k | k in p.strings :: ValidKey(k) && ValidValue(p.strings[k]))
    && (1 <= p.state <= 10 ==> ValidKey(p.key))
    && ValidValue(p.parts)
    && (p.state == 4 ==> '"' !in p.buf)
    && (p.state == 5 ==> AllLetters(p.buf))
    && (p.state == 0 || p.state == 11 ==> p.parts == [])
  }

  lemma {:induction false} StepKeepsGood(p: Parser, c: char)
    requires Good(p) && Step(p, c).Ok?
    ensures Good(Step(p, c).value)
  {
    if p.state <= 2 {
      KeyStepKeepsGood(p, c);
    } else if p.state <= 5 {
      ValueStepKeepsGood(p, c);
    } else {
      assert Step(p, c).value.parts == p.parts && Step(p, c).value.strings == p.strings;
    }
  }

  lemma {:induction false} KeyStepKeepsGood(p: Parser, c: char)
    requires Good(p) && Step(p, c).Ok? && p.state <= 2
    ensures Good(Step(p, c).value)
  {
    var q := Step(p, c).value;
    if p.state == 1 && IsAlnum(c) {
      assert q.key == p.key + [c];
    }
  }

  lemma {:induction false} ValueStepKeepsGood(p: Parser, c: char)
    requires Good(p) && Step(p, c).Ok? && 3 <= p.state <= 5
    ensures Good(Step(p, c).value)
  {
    var q := Step(p, c).value;
    if p.state == 3 && c == ';' {
      assert q.strings == p.strings[p.key := p.parts];
    } else if p.state == 4 && c == '"' {
      assert q.parts == p.parts + [Text(p.buf)];
    } else if p.state == 5 && IsLetter(c) {
      assert q.buf == p.buf + [c];
    } else if p.state == 5 && c == ' ' {
      assert q.parts == p.parts + [Param(p.buf)];
    }
  }

  lemma {:induction false} ParseKeepsGood(p: Parser, text: string)
    requires Good(p) && ParseFrom(p, text).Ok?
    ensures Good(ParseFrom(p, text).value)
    decreases |text|
  {
    if text != [] {
      StepKeepsGood(p, text[0]);
      ParseKeepsGood(Step(p, text[0]).value, text[1..]);
    }
  }

  // ------------------------------------------------------------ the format

  /** A quoted string or a parameter written the way the parser reads it. */
  function PrintPart(x: Part): string
    requires ValidPart(x)
  {
    match x
    case Text(v) => "\"" + v + "\""
    case Param(n) => "$" + n + " "
  }

  function PrintValue(ps: seq<Part>): string
    requires ValidValue(ps)
  {
    if ps == [] then ""
    else if |ps| == 1 then PrintPart(ps[0])
    else PrintPart(ps[0]) + " + " + PrintValue(ps[1..])
  }

  /** `key = part + part + ...;` on a line of its own. */
  function PrintEntry(k: string, ps: seq<Part>): string
    requires ValidValue(ps)
  {
    k + " = " + PrintValue(ps) + ";\n"
  }

  predicate ValidEntries(es: seq<(string, seq<Part>)>) {
    forall i | 0 <= i < |es| :: ValidKey(es[i].0) && ValidValue(es[i].1)
  }

  function PrintScope(es: seq<(string, seq<Part>)>): string
    requires ValidEntries(es)
  {
    if es == [] then "" else PrintEntry(es[0].0, es[0].1) + PrintScope(es[1..])
  }

  /** The strings a list of entries defines, when no key repeats. */
  function ToMap(es: seq<(string, seq<Part>)>): Strings {
    if es == [] then map[] else ToMap(es[1..])[es[0].0 := es[0].1]
  }

  function Keys(es: seq<(string, seq<Part>)>): (r: seq<string>)
    ensures |r| == |es| && forall i | 0 <= i < |es| :: r[i] == es[i].0
  {
    if es == [] then [] else [es[0].0] + Keys(es[1..])
  }

  /** Between values: the parser is waiting for a key. */
  predicate Idle(p: Parser) { p.state == 0 && p.parts == [] && p.buf == "" }

  /** Reading the value side: the parser is after `=` with nothing buffered. */
  predicate InValue(p: Parser) { p.state == 3 && p.buf == "" }

  lemma {:induction false} KeyChars(p: Parser, s: string)
    requires p.state == 1 && forall i | 0 <= i < |s| :: IsAlnum(s[i])
    ensures ParseFrom(p, s) == Ok(p.(key := p.key + s))
    decreases |s|
  {
    if s == [] {
      assert p.key + s == p.key;
    } else {
      KeyChars(p.(key := p.key + [s[0]]), s[1..]);
      assert p.key + [s[0]] + s[1..] == p.key + s;
    }
  }

  lemma {:induction false} ReadKey(p: Parser, k: string)
    requires Idle(p) && ValidKey(k)
    ensures ParseFrom(p, k + " = ") == Ok(p.(state := 3, key := k))
  {
    var p1 := p.(state := 1, key := [k[0]]);
    assert k == [k[0]] + k[1..];
    ParseCons(p, k[0], k[1..]);
    KeyChars(p1, k[1..]);
    ParseAppend(p, k, " = ");
    var p2 := p.(state := 1, key := k);
    ParseCons(p2, ' ', "= ");
    ParseCons(p2.(state := 2), '=', " ");
    ParseCons(p2.(state := 3), ' ', "");
  }

  lemma {:induction false} StringChars(p: Parser, v: string)
    requires (p.state == 4 || p.state == 10) && '"' !in v
    ensures ParseFrom(p, v) == Ok(p.(buf := p.buf + v))
    decreases |v|
  {
    if v == [] {
      assert p.buf + v == p.buf;
    } else {
      assert '"' !in v[1..];
      StringChars(p.(buf := p.buf + [v[0]]), v[1..]);
      assert p.buf + [v[0]] + v[1..] == p.buf + v;
    }
  }

  lemma {:induction false} NameChars(p: Parser, n: string)
    requires (p.state == 5 || p.state == 7) && AllLetters(n)
    ensures ParseFrom(p, n) == Ok(p.(buf := p.buf + n))
    decreases |n|
  {
    if n == [] {
      assert p.buf + n == p.buf;
    } else {
      NameChars(p.(buf := p.buf + [n[0]]), n[1..]);
      assert p.buf + [n[0]] + n[1..] == p.buf + n;
    }
  }

  /** The last character of a run, read on its own. */
  lemma {:induction false} ParseOne(p: Parser, c: char)
    ensures ParseFrom(p, [c]) == Step(p, c)
  {
    ParseCons(p, c, []);
    assert [c] + [] == [c];
  }

  lemma {:induction false} ReadPart(p: Parser, x: Part)
    requires InValue(p) && ValidPart(x)
    ensures ParseFrom(p, PrintPart(x)) == Ok(p.(parts := p.parts + [x]))
  {
    match x
    case Text(v) => ReadText(p, v);
    case Param(n) => ReadParam(p, n);
  }

  lemma {:induction false} ReadText(p: Parser, v: string)
    requires InValue(p) && ValidPart(Text(v))
    ensures ParseFrom(p, PrintPart(Text(v))) == Ok(p.(parts := p.parts + [Text(v)]))
  {
    var q := p.(state := 4);
    assert PrintPart(Text(v)) == ['"'] + (v + ['"']);
    assert Step(p, '"') == Ok(q);
    ParseCons(p, '"', v + ['"']);
    StringChars(q, v);
    assert q.buf + v == v;
    ParseAppend(q, v, ['"']);
    ParseOne(q.(buf := v), '"');
  }

  lemma {:induction false} ReadParam(p: Parser, n: string)
    requires InValue(p) && ValidPart(Param(n))
    ensures ParseFrom(p, PrintPart(Param(n))) == Ok(p.(parts := p.parts + [Param(n)]))
  {
    var q := p.(state := 5);
    assert PrintPart(Param(n)) == ['$'] + (n + [' ']);
    assert Step(p, '$') == Ok(q);
    ParseCons(p, '$', n + [' ']);
    NameChars(q, n);
    assert q.buf + n == n;
    ParseAppend(q, n, [' ']);
    ParseOne(q.(buf := n), ' ');
    assert !IsLetter(' ');
  }

  /** The ` + ` between parts is skipped. */
  lemma {:induction false} SkipPlus(q: Parser)
    requires InValue(q)
    ensures ParseFrom(q, " + ") == Ok(q)
  {
    assert " + " == [' '] + ([ '+'] + [' ']);
    ParseCons(q, ' ', ['+'] + [' ']);
    ParseCons(q, '+', [' ']);
    ParseOne(q, ' ');
  }

  lemma {:induction false} ReadValue(p: Parser, ps: seq<Part>)
    requires InValue(p) && ValidValue(ps)
    ensures ParseFrom(p, PrintValue(ps)) == Ok(p.(parts := p.parts + ps))
    decreases |ps|
  {
    if ps == [] {
      assert p.parts + ps == p.parts;
    } else if |ps| == 1 {
      ReadPart(p, ps[0]);
      assert ps == [ps[0]];
    } else {
      var q := p.(parts := p.parts + [ps[0]]);
      ReadValue(q, ps[1..]);
      ReadFirstPart(p, ps, q.(parts := q.parts + ps[1..]));
      PartsAssoc(p, ps);
    }
  }

  lemma {:induction false} PartsAssoc(p: Parser, ps: seq<Part>)
    requires ps != []
    ensures p.(parts := p.parts + [ps[0]]).(parts := p.parts + [ps[0]] + ps[1..]) == p.(parts := p.parts + ps)
  {
    assert p.parts + [ps[0]] + ps[1..] == p.parts + ps;
  }

  lemma {:induction false} ReadFirstPart(p: Parser, ps: seq<Part>, r: Parser)
    requires InValue(p) && ValidValue(ps) && |ps| >= 2
    requires ParseFrom(p.(parts := p.parts + [ps[0]]), PrintValue(ps[1..])) == Ok(r)
    ensures ParseFrom(p, PrintValue(ps)) == Ok(r)
  {
    FirstPartStep(p, ps);
  }

  /** After the first part and its ` + `, the rest of the value is read. */
  lemma {:induction false} FirstPartStep(p: Parser, ps: seq<Part>)
    requires InValue(p) && ValidValue(ps) && |ps| >= 2
    ensures ParseFrom(p, PrintValue(ps)) == ParseFrom(p.(parts := p.parts + [ps[0]]), PrintValue(ps[1..]))
  {
    var rest := PrintValue(ps[1..]);
    assert PrintValue(ps) == PrintPart(ps[0]) + (" + " + rest);
    ReadPartThen(p, ps[0], " + " + rest);
    SkipPlusThen(p.(parts := p.parts + [ps[0]]), rest);
  }

  lemma {:induction false} ReadPartThen(p: Parser, x: Part, tail: string)
    requires InValue(p) && ValidPart(x)
    ensures ParseFrom(p, PrintPart(x) + tail) == ParseFrom(p.(parts := p.parts + [x]), tail)
  {
    ReadPart(p, x);
    ParseAppend(p, PrintPart(x), tail);
  }

  lemma {:induction false} SkipPlusThen(q: Parser, tail: string)
    requires InValue(q)
    ensures ParseFrom(q, " + " + tail) == ParseFrom(q, tail)
  {
    SkipPlus(q);
    ParseAppend(q, " + ", tail);
  }

  /** One printed entry stores its value under its key, or stops at a key already
      stored. */
  lemma {:induction false} ReadEntry(p: Parser, k: string, ps: seq<Part>)
    requires Idle(p) && ValidKey(k) && ValidValue(ps)
    ensures var r := ParseFrom(p, PrintEntry(k, ps));
      (r.Ok? <==> k !in p.strings)
      && (r.Err? ==> r.error == DuplicateKey(k))
      && (r.Ok? ==> Idle(r.value) && r.value.strings == p.strings[k := ps])
  {
    var v := p.(state := 3, key := k, parts := ps);
    EntryUpToSemicolon(p, k, ps);
    EndEntry(v);
  }

  /** The key, ` = ` and the value leave the parser before `;\n` with the value read. */
  lemma {:induction false} EntryUpToSemicolon(p: Parser, k: string, ps: seq<Part>)
    requires Idle(p) && ValidKey(k) && ValidValue(ps)
    ensures ParseFrom(p, PrintEntry(k, ps)) == ParseFrom(p.(state := 3, key := k, parts := ps), ";\n")
  {
    var q := p.(state := 3, key := k);
    assert PrintEntry(k, ps) == (k + " = ") + (PrintValue(ps) + ";\n");
    ReadKey(p, k);
    ParseAppend(p, k + " = ", PrintValue(ps) + ";\n");
    ValueUpToSemicolon(q, ps);
  }

  lemma {:induction false} ValueUpToSemicolon(q: Parser, ps: seq<Part>)
    requires InValue(q) && q.parts == [] && ValidValue(ps)
    ensures ParseFrom(q, PrintValue(ps) + ";\n") == ParseFrom(q.(parts := ps), ";\n")
  {
    ReadValue(q, ps);
    assert q.parts + ps == ps;
    ParseAppend(q, PrintValue(ps), ";\n");
  }

  /** `;` stores the value unless the key is taken; the newline after it is skipped. */
  lemma {:induction false} EndEntry(v: Parser)
    requires v.state == 3
    ensures var r := ParseFrom(v, ";\n");
      (r.Ok? <==> v.key !in v.strings)
      && (r.Err? ==> r.error == DuplicateKey(v.key))
      && (r.Ok? ==> Idle(r.value) && r.value.strings == v.strings[v.key := v.parts])
  {
    assert ";\n" == [';'] + ['\n'];
    ParseCons(v, ';', ['\n']);
    if v.key !in v.strings {
      var w := Finalize(v).value;
      ParseOne(w, '\n');
      assert Step(w, '\n') == Ok(w);
    }
  }

  /** Storing entries one by one as `;` does: a key already present stops the run. */
  function Store(strings: Strings, es: seq<(string, seq<Part>)>): (r: Result<Strings, Fault>)
    ensures r.Err? ==> r.error.DuplicateKey? && r.error.key in Keys(es)
    decreases |es|
  {
    if es == [] then Ok(strings)
    else if es[0].0 in strings then Err(DuplicateKey(es[0].0))
    else Store(strings[es[0].0 := es[0].1], es[1..])
  }

  /** The entries' keys are distinct and none is stored yet. */
  predicate FreshKeys(strings: Strings, es: seq<(string, seq<Part>)>) {
    Distinct(Keys(es)) && forall i | 0 <= i < |es| :: es[i].0 !in strings
  }

  /** Storing succeeds exactly when the keys are new and distinct, and then adds all
      the entries. */
  lemma {:induction false} StoreAll(strings: Strings, es: seq<(string, seq<Part>)>)
    ensures Store(strings, es).Ok? <==> FreshKeys(strings, es)
    ensures Store(strings, es).Ok? ==> Store(strings, es).value == strings + ToMap(es)
    decreases |es|
  {
    if es != [] {
      var (k, ps) := es[0];
      var tail := es[1..];
      var s2 := strings[k := ps];
      if k in strings {
        assert es[0].0 in strings;
      } else {
        StoreAll(s2, tail);
        assert Store(strings, es) == Store(s2, tail);
        if FreshKeys(strings, es) {
          FreshHeadFreshTail(strings, es);
          ToMapKeys(tail, k);
          assert s2 + ToMap(tail) == strings + ToMap(es);
        }
        if Store(s2, tail).Ok? {
          StoredHeadDistinct(strings, es);
        }
      }
    }
  }

  /** Distinct keys, none stored yet: the tail is the same after the head is stored. */
  lemma {:induction false} FreshHeadFreshTail(strings: Strings, es: seq<(string, seq<Part>)>)
    requires es != [] && Distinct(Keys(es)) && forall i | 0 <= i < |es| :: es[i].0 !in strings
    ensures var tail := es[1..];
      Distinct(Keys(tail)) && (forall i | 0 <= i < |tail| :: tail[i].0 != es[0].0)
      && forall i | 0 <= i < |tail| :: tail[i].0 !in strings[es[0].0 := es[0].1]
  {
    var tail := es[1..];
    assert Keys(es) == [es[0].0] + Keys(tail);
    forall i | 0 <= i < |tail| ensures tail[i].0 != es[0].0 && tail[i].0 !in strings {
      assert tail[i] == es[i + 1];
      assert Keys(es)[i + 1] != Keys(es)[0];
    }
    forall i, j | 0 <= i < j < |tail| ensures Keys(tail)[i] != Keys(tail)[j] {
      assert Keys(es)[i + 1] != Keys(es)[j + 1];
    }
  }

  /** A successful store had a head key absent from the distinct tail keys. */
  lemma {:induction false} StoredHeadDistinct(strings: Strings, es: seq<(string, seq<Part>)>)
    requires es != [] && Store(strings, es).Ok?
    requires var s2 := strings[es[0].0 := es[0].1];
      Distinct(Keys(es[1..])) && forall i | 0 <= i < |es[1..]| :: es[1..][i].0 !in s2
    ensures Distinct(Keys(es)) && forall i | 0 <= i < |es| :: es[i].0 !in strings
  {
    var tail := es[1..];
    var k := es[0].0;
    assert k !in strings;
    assert Keys(es) == [k] + Keys(tail);
    forall i | 0 <= i < |tail| ensures Keys(tail)[i] != k { assert tail[i].0 != k; }
    PrependDistinct(Keys(tail), k);
    forall i | 0 <= i < |es| ensures es[i].0 !in strings {
      if i > 0 { assert es[i] == tail[i - 1]; }
    }
  }

  lemma {:induction false} ToMapKeys(es: seq<(string, seq<Part>)>, k: string)
    requires forall i | 0 <= i < |es| :: es[i].0 != k
    ensures k !in ToMap(es)
    decreases |es|
  {
    if es != [] {
      ToMapKeys(es[1..], k);
    }
  }

  /** Parsing printed entries stores them as `Store` does. */
  lemma {:induction false} ReadScope(p: Parser, es: seq<(string, seq<Part>)>)
    requires Idle(p) && ValidEntries(es)
    ensures var r := ParseFrom(p, PrintScope(es));
      (r.Ok? <==> Store(p.strings, es).Ok?)
      && (r.Err? ==> r.error == Store(p.strings, es).error)
      && (r.Ok? ==> Idle(r.value) && r.value.strings == Store(p.strings, es).value)
    decreases |es|
  {
    if es != [] {
      var (k, ps) := es[0];
      ReadEntry(p, k, ps);
      ParseAppend(p, PrintEntry(k, ps), PrintScope(es[1..]));
      if k !in p.strings {
        ReadScope(ParseFrom(p, PrintEntry(k, ps)).value, es[1..]);
      }
    }
  }

  /** A whole file in the format parses back to its entries when the keys are
      distinct, and fails on a repeated key otherwise. */
  lemma {:induction false} ParsePrinted(es: seq<(string, seq<Part>)>)
    requires ValidEntries(es)
    ensures Parse(PrintScope(es)).Ok? <==> Distinct(Keys(es))
    ensures Parse(PrintScope(es)).Ok? ==> Parse(PrintScope(es)).value == ToMap(es)
  {
    ReadScope(Start, es);
    StoreAll(map[], es);
    assert map[] + ToMap(es) == ToMap(es);
  }

  /** `{NAME:` opens a plural block: the name is kept and no form is read yet. */
  lemma {:induction false} OpenBlock(p: Parser, name: string, tail: string)
    requires InValue(p) && |name| >= 1 && AllLetters(name)
    ensures ParseFrom(p, "{" + name + ":" + tail)
      == ParseFrom(p.(buf := name, pluralName := name, forms := [], state := 9), tail)
  {
    var p6 := p.(state := 6);
    assert "{" + name + ":" + tail == ['{'] + (name + ([':'] + tail));
    ParseCons(p, '{', name + ([':'] + tail));
    BlockName(p6, name, [':'] + tail);
    var q := p6.(buf := name, state := 7);
    ParseCons(q, ':', tail);
  }

  lemma {:induction false} BlockName(p6: Parser, name: string, tail: string)
    requires p6.state == 6 && |name| >= 1 && AllLetters(name)
    ensures ParseFrom(p6, name + tail) == ParseFrom(p6.(buf := name, state := 7), tail)
  {
    var q := p6.(buf := [name[0]], state := 7);
    assert name + tail == [name[0]] + (name[1..] + tail);
    ParseCons(p6, name[0], name[1..] + tail);
    NameRun(q, name[1..], tail);
    assert [name[0]] + name[1..] == name;
  }

  lemma {:induction false} NameRun(q: Parser, n: string, tail: string)
    requires (q.state == 5 || q.state == 7) && AllLetters(n)
    ensures ParseFrom(q, n + tail) == ParseFrom(q.(buf := q.buf + n), tail)
  {
    NameChars(q, n);
    ParseAppend(q, n, tail);
  }

  lemma {:induction false} StringRun(q: Parser, v: string, tail: string)
    requires (q.state == 4 || q.state == 10) && '"' !in v
    ensures ParseFrom(q, v + tail) == ParseFrom(q.(buf := q.buf + v), tail)
  {
    StringChars(q, v);
    ParseAppend(q, v, tail);
  }

  /** A plural block after its forms: `}` closes it when there are two or more. */
  lemma {:induction false} CloseBlock(w: Parser)
    requires w.state == 9
    ensures ParseFrom(w, "}") == if |w.forms| < 2 then Err(TooFewForms(w.pluralName)) else Ok(w.(state := 3))
  {
    ParseOne(w, '}');
  }

  /** A well-formed plural block is read and then dropped: the value's parts are what
      they were before it. With fewer than two forms it stops the parse. */
  lemma {:induction false} PluralBlockDropped(p: Parser, name: string, forms: seq<string>)
    requires InValue(p) && |name| >= 1 && AllLetters(name)
    requires forall i | 0 <= i < |forms| :: '"' !in forms[i]
    ensures var r := ParseFrom(p, "{" + name + ":" + PrintForms(forms) + "}");
      (r.Ok? <==> |forms| >= 2)
      && (r.Err? ==> r.error == TooFewForms(name))
      && (r.Ok? ==>
            (r.value.state == 3 && r.value.parts == p.parts && r.value.strings == p.strings
             && r.value.forms == forms))
  {
    var w := p.(buf := name, pluralName := name, forms := [], state := 9);
    assert "{" + name + ":" + PrintForms(forms) + "}" == "{" + name + ":" + (PrintForms(forms) + "}");
    OpenBlock(p, name, PrintForms(forms) + "}");
    ReadForms(w, forms);
    ParseAppend(w, PrintForms(forms), "}");
    assert [] + forms == forms;
    CloseBlock(w.(forms := forms, buf := if forms == [] then w.buf else ""));
  }

  /** Plural forms as the parser reads them: quoted, separated by blanks. */
  function PrintForms(forms: seq<string>): string
    requires forall i | 0 <= i < |forms| :: '"' !in forms[i]
  {
    if forms == [] then "" else "\"" + forms[0] + "\" " + PrintForms(forms[1..])
  }

  lemma {:induction false} ReadForms(p: Parser, forms: seq<string>)
    requires p.state == 9 && forall i | 0 <= i < |forms| :: '"' !in forms[i]
    ensures ParseFrom(p, PrintForms(forms)) == Ok(p.(forms := p.forms + forms, buf := if forms == [] then p.buf else ""))
    decreases |forms|
  {
    if forms == [] {
      assert p.forms + forms == p.forms;
    } else {
      var x := p.(forms := p.forms + [forms[0]], buf := "");
      ReadForms(x, forms[1..]);
      ReadFirstForm(p, forms, x.(forms := x.forms + forms[1..], buf := if forms[1..] == [] then x.buf else ""));
      FormsAssoc(p, forms);
    }
  }

  lemma {:induction false} FormsAssoc(p: Parser, forms: seq<string>)
    requires forms != []
    ensures p.(forms := p.forms + [forms[0]], buf := "").(forms := p.forms + [forms[0]] + forms[1..], buf := "")
      == p.(forms := p.forms + forms, buf := "")
  {
    assert p.forms + [forms[0]] + forms[1..] == p.forms + forms;
  }

  lemma {:induction false} ReadFirstForm(p: Parser, forms: seq<string>, r: Parser)
    requires p.state == 9 && forms != [] && forall i | 0 <= i < |forms| :: '"' !in forms[i]
    requires ParseFrom(p.(forms := p.forms + [forms[0]], buf := ""), PrintForms(forms[1..])) == Ok(r)
    ensures ParseFrom(p, PrintForms(forms)) == Ok(r)
  {
    FirstFormStep(p, forms);
  }

  /** After the first quoted form and its blank, the remaining forms are read. */
  lemma {:induction false} FirstFormStep(p: Parser, forms: seq<string>)
    requires p.state == 9 && forms != [] && forall i | 0 <= i < |forms| :: '"' !in forms[i]
    ensures ParseFrom(p, PrintForms(forms))
      == ParseFrom(p.(forms := p.forms + [forms[0]], buf := ""), PrintForms(forms[1..]))
  {
    var f := forms[0];
    var rest := PrintForms(forms[1..]);
    assert PrintForms(forms) == ['"'] + (f + (['"'] + ([' '] + rest)));
    OpenForm(p, f + (['"'] + ([' '] + rest)));
    var q := p.(buf := "", state := 10);
    StringRun(q, f, ['"'] + ([' '] + rest));
    assert q.buf + f == f;
    CloseForm(q.(buf := f), rest);
  }

  lemma {:induction false} OpenForm(p: Parser, tail: string)
    requires p.state == 9
    ensures ParseFrom(p, ['"'] + tail) == ParseFrom(p.(buf := "", state := 10), tail)
  {
    ParseCons(p, '"', tail);
  }

  lemma {:induction false} CloseForm(w: Parser, tail: string)
    requires w.state == 10
    ensures ParseFrom(w, ['"'] + ([' '] + tail)) == ParseFrom(w.(forms := w.forms + [w.buf], buf := "", state := 9), tail)
  {
    var x := w.(forms := w.forms + [w.buf], buf := "", state := 9);
    ParseCons(w, '"', [' '] + tail);
    ParseCons(x, ' ', tail);
  }

  /** The documented `{ N : "a", "b" }` does not parse: a comma between forms has no
      branch in state 9. */
  lemma {:induction false} CommaBetweenFormsRejected(p: Parser, name: string, f: string)
    requires InValue(p) && |name| >= 1 && AllLetters(name) && '"' !in f
    ensures ParseFrom(p, "{" + name + ":" + PrintForms([f]) + ",") == Err(Unexpected(9, ','))
  {
    var w := p.(buf := name, pluralName := name, forms := [], state := 9);
    assert "{" + name + ":" + PrintForms([f]) + "," == "{" + name + ":" + (PrintForms([f]) + ",");
    OpenBlock(p, name, PrintForms([f]) + ",");
    ReadForms(w, [f]);
    ParseAppend(w, PrintForms([f]), ",");
    ParseOne(w.(forms := [] + [f], buf := ""), ',');
  }

  /** Comments are not supported: `/` leads to a state with no branches, so the next
      character stops the parse. */
  lemma {:induction false} CommentRejected(p: Parser, c: char, rest: string)
    requires Idle(p)
    ensures ParseFrom(p, ['/', c] + rest) == Err(Unexpected(11, c))
  {
    assert (['/', c] + rest)[1..] == [c] + rest;
    assert ([c] + rest)[1..] == rest;
  }

  // ------------------------------------------------------------- rendering

  /** A keyword argument of a call: a number, or any other value through its `str`. */
  datatype Arg = IntArg(n: int) | FloatArg(x: real, repr: string) | StrArg(s: string)

  /** Why a call of a value raised. */
  datatype CallFault =
    | PositionalArguments
    | MissingArgument(name: string)
    | NotANumber(name: string)
    | WrongFormCount(count: nat)
    | LocalizedParameter(name: string)

  predicate IsNumber(a: Arg) { a.IntArg? || a.FloatArg? }

  predicate IsOne(a: Arg) { (a.IntArg? && a.n == 1) || (a.FloatArg? && a.x == 1.0) }

  /** `EnLanguage.render`: exactly two forms, singular for a count equal to one. */
  function Render(forms: seq<string>, count: Arg): (r: Result<string, CallFault>)
    ensures r.Ok? <==> |forms| == 2
    ensures r.Err? ==> r.error == WrongFormCount(|forms|)
    ensures r.Ok? ==> r.value in forms && (r.value == forms[0] || !IsOne(count))
  {
    if |forms| != 2 then Err(WrongFormCount(|forms|))
    else if IsOne(count) then Ok(forms[0])
    else Ok(forms[1])
  }

  /** The singular form is chosen for one and only for one. */
  lemma {:induction false} RenderSingularIffOne(singular: string, plural: string, count: Arg)
    requires singular != plural
    ensures Render([singular, plural], count) == Ok(if IsOne(count) then singular else plural)
    ensures Render([singular, plural], count).value == singular <==> IsOne(count)
  {
  }

  /** `str()` of an argument. */
  function Str(a: Arg): string {
    match a
    case IntArg(n) => Decimal.IntToString(n)
    case FloatArg(_, repr) => repr
    case StrArg(s) => s
  }

  predicate EndsWithLoc(name: string) { |name| >= 4 && name[|name| - 4..] == "_LOC" }

  /** Whether one part can be rendered with these arguments. */
  predicate Renders(x: Part, kwargs: map<string, Arg>) {
    match x
    case Text(_) => true
    case Param(n) => !EndsWithLoc(n) && n in kwargs
    case Plural(n, forms) => n in kwargs && IsNumber(kwargs[n]) && |forms| == 2
  }

  /** The loop of `TemplateValue.__call__`: the parts in order, stopping at the first
      that raises. */
  function Fill(parts: seq<Part>, kwargs: map<string, Arg>): (r: Result<string, CallFault>)
    ensures r.Ok? <==> forall i | 0 <= i < |parts| :: Renders(parts[i], kwargs)
  {
    if parts == [] then Ok("")
    else
      var head :- match parts[0]
        case Text(v) => Ok(v)
        case Param(n) =>
          var name := if EndsWithLoc(n) then n[..|n| - 4] else n;
          if name !in kwargs then Err(MissingArgument(name))
          else if EndsWithLoc(n) then Err(LocalizedParameter(name))
          else Ok(Str(kwargs[name]))
        case Plural(n, forms) =>
          if n !in kwargs then Err(MissingArgument(n))
          else if !IsNumber(kwargs[n]) then Err(NotANumber(n))
          else Render(forms, kwargs[n]);
      var rest :- Fill(parts[1..], kwargs);
      Ok(head + rest)
  }

  /** The texts of a value made of strings only. */
  function Texts(parts: seq<Part>): string {
    if parts == [] then "" else (if parts[0].Text? then parts[0].value else "") + Texts(parts[1..])
  }

  /** A value made of strings renders as those strings, with any arguments. */
  lemma {:induction false} FillTexts(parts: seq<Part>, kwargs: map<string, Arg>)
    requires forall i | 0 <= i < |parts| :: parts[i].Text?
    ensures Fill(parts, kwargs) == Ok(Texts(parts))
    decreases |parts|
  {
    if parts != [] {
      FillTexts(parts[1..], kwargs);
    }
  }

  /** `value(*args, **kwargs)` as written: it builds the string but has no `return`,
      so a call that does not raise gives `None`. */
  function CallAsWritten(parts: seq<Part>, positional: nat, kwargs: map<string, Arg>): (r: Result<Option<string>, CallFault>)
    ensures r.Ok? <==> positional == 0 && forall i | 0 <= i < |parts| :: Renders(parts[i], kwargs)
    ensures r.Ok? ==> r.value == None
  {
    if positional > 0 then Err(PositionalArguments)
    else
      var _ :- Fill(parts, kwargs);
      Ok(None)
  }

  /** The call as evidently intended: the same checks, returning the built string. */
  function Call(parts: seq<Part>, positional: nat, kwargs: map<string, Arg>): (r: Result<string, CallFault>)
    ensures r.Ok? <==> CallAsWritten(parts, positional, kwargs).Ok?
    ensures r.Err? ==> r == Err(CallAsWritten(parts, positional, kwargs).error)
    ensures positional > 0 ==> r == Err(PositionalArguments)
  {
    if positional > 0 then Err(PositionalArguments) else Fill(parts, kwargs)
  }

  /** The discrepancy: a value `k = "hi";` called with no arguments yields `None` as
      written, and `"hi"` once the string is returned. */
  lemma {:induction false} CallLosesText()
    ensures CallAsWritten([Text("hi")], 0, map[]) == Ok(None)
    ensures Call([Text("hi")], 0, map[]) == Ok("hi")
  {
    FillTexts([Text("hi")], map[]);
    assert Texts([Text("hi")]) == "hi" + Texts([]);
    assert "hi" + "" == "hi";
  }

  /** A file entry whose value is strings only renders, once parsed, as exactly those
      strings. */
  lemma {:induction false} ParsedTextRenders(k: string, texts: seq<string>)
    requires ValidKey(k) && forall i | 0 <= i < |texts| :: '"' !in texts[i]
    ensures var ps := seq(|texts|, i requires 0 <= i < |texts| => Text(texts[i]));
      Parse(PrintEntry(k, ps)).Ok?
      && k in Parse(PrintEntry(k, ps)).value
      && Call(Parse(PrintEntry(k, ps)).value[k], 0, map[]) == Ok(Texts(ps))
  {
    var ps := seq(|texts|, i requires 0 <= i < |texts| => Text(texts[i]));
    var es := [(k, ps)];
    assert ValidEntries(es);
    assert PrintScope(es) == PrintEntry(k, ps);
    ParsePrinted(es);
    assert ToMap(es) == map[][k := ps];
    FillTexts(ps, map[]);
  }

  // ------------------------------------------------------------- scopes

  /** A directory entry of the localisation directory. */
  datatype DirEntry = DirEntry(name: string, isFile: bool, content: string)

  predicate IsScopeFile(e: DirEntry) {
    e.isFile && |e.name| >= 4 && e.name[|e.name| - 4..] == ".loc"
  }

  /** `name.split(".")[0]`. */
  function ScopeName(name: string): (r: string)
    ensures '.' !in r && r <= name
    ensures |r| < |name| ==> name[|r|] == '.'
  {
    if '.' in name then name[..IndexOf(name, '.')] else name
  }

  /** `Localization(path)`: a scope per `.loc` file, named by the text before its first
      dot; a later file with the same name replaces an earlier one, and a file that
      does not parse stops the load. */
  function LoadScopes(entries: seq<DirEntry>): (r: Result<map<string, Strings>, Fault>)
    ensures r.Ok? <==> forall i | 0 <= i < |entries| && IsScopeFile(entries[i]) :: Parse(entries[i].content).Ok?
    ensures r.Ok? ==> forall n :: n in r.value <==> HasScope(entries, n)
    ensures r.Ok? && entries != [] && IsScopeFile(entries[|entries| - 1]) ==>
      ScopeName(entries[|entries| - 1].name) in r.value
      && r.value[ScopeName(entries[|entries| - 1].name)] == Parse(entries[|entries| - 1].content).value
  {
    LoadWithNames(entries, Parse);
    LoadWith(entries, Parse)
  }

  /** The loading loop, for any reader `parse` of a file's text. */
  function LoadWith(entries: seq<DirEntry>, parse: string -> Result<Strings, Fault>): (r: Result<map<string, Strings>, Fault>)
    ensures r.Ok? <==> forall i | 0 <= i < |entries| && IsScopeFile(entries[i]) :: parse(entries[i].content).Ok?
    ensures r.Ok? && entries != [] && IsScopeFile(entries[|entries| - 1]) ==>
      ScopeName(entries[|entries| - 1].name) in r.value
      && r.value[ScopeName(entries[|entries| - 1].name)] == parse(entries[|entries| - 1].content).value
  {
    if entries == [] then Ok(map[])
    else
      var n := |entries| - 1;
      var init := entries[..n];
      assert forall i | 0 <= i < n :: init[i] == entries[i];
      var prev :- LoadWith(init, parse);
      var e := entries[n];
      if !IsScopeFile(e) then Ok(prev)
      else
        var s :- parse(e.content);
        Ok(prev[ScopeName(e.name) := s])
  }

  /** The loaded scopes are exactly the names of the scope files. */
  lemma {:induction false} LoadWithNames(entries: seq<DirEntry>, parse: string -> Result<Strings, Fault>)
    ensures var r := LoadWith(entries, parse);
      r.Ok? ==> forall n :: n in r.value <==> HasScope(entries, n)
    decreases |entries|
  {
    if entries != [] {
      LoadWithNames(entries[..|entries| - 1], parse);
      HasScopeSnoc(entries);
    }
  }

  /** Every scope file that no later file of the same scope name replaces decides its
      scope: the loaded scope is that file's parse. */
  lemma {:induction false} LoadScopesLastFileWins(entries: seq<DirEntry>, i: nat)
    requires i < |entries| && IsScopeFile(entries[i])
    requires forall j | i < j < |entries| && IsScopeFile(entries[j]) :: ScopeName(entries[j].name) != ScopeName(entries[i].name)
    ensures var r := LoadScopes(entries);
      r.Ok? ==> (ScopeName(entries[i].name) in r.value
        && r.value[ScopeName(entries[i].name)] == Parse(entries[i].content).value)
  {
    LoadWithLastFileWins(entries, Parse, i);
  }

  lemma {:induction false} LoadWithLastFileWins(entries: seq<DirEntry>, parse: string -> Result<Strings, Fault>, i: nat)
    requires i < |entries| && IsScopeFile(entries[i])
    requires forall j | i < j < |entries| && IsScopeFile(entries[j]) :: ScopeName(entries[j].name) != ScopeName(entries[i].name)
    ensures var r := LoadWith(entries, parse);
      r.Ok? ==> (ScopeName(entries[i].name) in r.value
        && r.value[ScopeName(entries[i].name)] == parse(entries[i].content).value)
    decreases |entries|
  {
    var n := |entries| - 1;
    if i < n {
      var init := entries[..n];
      var name := ScopeName(entries[i].name);
      assert init[i] == entries[i];
      forall j | i < j < |init| && IsScopeFile(init[j]) ensures ScopeName(init[j].name) != name {
        assert init[j] == entries[j];
      }
      LoadWithLastFileWins(init, parse, i);
    }
  }

  /** Some scope file among the entries is named `n`. */
  predicate HasScope(entries: seq<DirEntry>, n: string) {
    exists i | 0 <= i < |entries| :: IsScopeFile(entries[i]) && ScopeName(entries[i].name) == n
  }

  lemma {:induction false} HasScopeSnoc(entries: seq<DirEntry>)
    requires entries != []
    ensures var last := entries[|entries| - 1];
      forall n :: HasScope(entries, n) <==>
        HasScope(entries[..|entries| - 1], n) || (IsScopeFile(last) && ScopeName(last.name) == n)
  {
    var k := |entries| - 1;
    assert forall i | 0 <= i < k :: entries[..k][i] == entries[i];
  }
}

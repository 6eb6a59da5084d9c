/** `read_config_and_environment` (run.py): environment variables named
    `DJ_<section>_<key>` override entries of the parsed configuration. */
module ConfigEnv {
  import opened Wrappers

  const Prefix: string := "DJ_"
  const DefaultSection: string := "DEFAULT"

  /** A parsed configuration: its sections in file order (`sections()`, which
      excludes the default section) and every option, keyed by (section, option). */
  datatype Config = Config(sections: seq<string>, values: map<(string, string), string>)

  predicate StartsWith(s: string, p: string) {
    |p| <= |s| && s[..|p|] == p
  }

  /** configparser's `optionxform`, `str.lower`, on ASCII letters. */
  function Lower(s: string): (r: string)
    ensures |r| == |s|
    ensures forall i | 0 <= i < |s| :: r[i] == (if 'A' <= s[i] <= 'Z' then (s[i] as int + 32) as char else s[i])
  {
    if s == [] then []
    else [if 'A' <= s[0] <= 'Z' then (s[0] as int + 32) as char else s[0]] + Lower(s[1..])
  }

  /** The candidate sections, in the order they are tried. */
  function Candidates(cfg: Config): seq<string> {
    cfg.sections + [DefaultSection]
  }

  /** The `for s in ...: if s == name[:len(s)]: section = s` loop as written,
      started with `section = found`: every match overwrites the previous one. */
  function Scan(cands: seq<string>, name: string, found: Option<string>): Option<string>
    decreases |cands|
  {
    if cands == [] then found
    else Scan(cands[1..], name, if StartsWith(name, cands[0]) then Some(cands[0]) else found)
  }

  /** Reference definition: the index of the last candidate that prefixes `name`. */
  function LastPrefixIndex(cands: seq<string>, name: string): (r: Option<nat>)
    ensures r.Some? ==> r.value < |cands| && StartsWith(name, cands[r.value])
    ensures r.Some? ==> forall j | r.value < j < |cands| :: !StartsWith(name, cands[j])
    ensures r.None? ==> forall j | 0 <= j < |cands| :: !StartsWith(name, cands[j])
  {
    if cands == [] then None
    else match LastPrefixIndex(cands[1..], name)
      case Some(i) => Some(i + 1)
      case None => if StartsWith(name, cands[0]) then Some(0) else None
  }

  /** The loop picks the last matching candidate, or leaves `found` when none matches. */
  lemma {:induction false} ScanPicksLastPrefix(cands: seq<string>, name: string, found: Option<string>)
    ensures Scan(cands, name, found) ==
      match LastPrefixIndex(cands, name)
      case Some(i) => Some(cands[i])
      case None => found
    decreases |cands|
  {
    if cands != [] {
      var next := if StartsWith(name, cands[0]) then Some(cands[0]) else found;
      ScanPicksLastPrefix(cands[1..], name, next);
    }
  }

  /** The option name: whatever follows the section name and one separator character. */
  function KeyAfter(name: string, section: string): (r: string)
    ensures |name| > |section| ==> r == name[|section| + 1..]
    ensures |name| <= |section| ==> r == ""
  {
    if |name| > |section| then name[|section| + 1..] else ""
  }

  /** Where the variable `name` lands, if anywhere: (section, option). */
  function Target(cfg: Config, name: string): (r: Option<(string, string)>)
    ensures !StartsWith(name, Prefix) ==> r.None?
    ensures StartsWith(name, Prefix) ==>
      var rest := name[|Prefix|..];
      match LastPrefixIndex(Candidates(cfg), rest)
      case None => r.None?
      case Some(i) => r == Some((Candidates(cfg)[i], Lower(KeyAfter(rest, Candidates(cfg)[i]))))
  {
    if !StartsWith(name, Prefix) then None
    else
      var rest := name[|Prefix|..];
      ScanPicksLastPrefix(Candidates(cfg), rest, None);
      match Scan(Candidates(cfg), rest, None)
      case None => None
      case Some(section) => Some((section, Lower(KeyAfter(rest, section))))
  }

  // ------------------------------------------------- interpolation syntax

  /** `config.set` on a `ConfigParser` (whose interpolation is `BasicInterpolation`)
      raises `ValueError` on a value with a stray `%`. */
  datatype ConfigError = ValueError

  /** `value.replace('%%', '')`: escaped percent signs removed, left to right. */
  function DropEscapes(v: string): string
    decreases |v|
  {
    if |v| >= 2 && v[0] == '%' && v[1] == '%' then DropEscapes(v[2..])
    else if v == [] then []
    else [v[0]] + DropEscapes(v[1..])
  }

  /** How many characters before the first `)`. */
  function NameLength(v: string): (n: nat)
    ensures n <= |v|
    ensures forall i | 0 <= i < n :: v[i] != ')'
    ensures n < |v| ==> v[n] == ')'
    decreases |v|
  {
    if v == [] || v[0] == ')' then 0
    else
      var n := NameLength(v[1..]);
      assert forall i | 1 <= i < n + 1 :: v[i] == v[1..][i - 1];
      n + 1
  }

  /** `v` starts with a match of `%\(([^)]+)\)s` that is `m` characters long: a
      non-empty name without `)` between `%(` and `)s`. */
  predicate ReferenceAt(v: string, m: int) {
    5 <= m <= |v| && v[..2] == "%(" && v[m - 2..m] == ")s" && forall i | 2 <= i < m - 2 :: v[i] != ')'
  }

  /** The length of a match of `%\(([^)]+)\)s` at the start of `v`, or 0. The name
      runs to the first `)`, which must be followed by `s`. */
  function ReferenceLength(v: string): (n: nat)
    ensures n == 0 || ReferenceAt(v, n)
  {
    if |v| >= 2 && v[0] == '%' && v[1] == '(' then
      var k := NameLength(v[2..]);
      if k > 0 && 2 + k + 1 < |v| && v[2 + k] == ')' && v[3 + k] == 's' then
        assert forall i | 2 <= i < 2 + k :: v[i] == v[2..][i - 2];
        4 + k
      else 0
    else 0
  }

  /** Every match at the start of `v` is found: the name of a reference ends at the
      first `)`, so a match has exactly the length `ReferenceLength` gives. */
  lemma {:induction false} ReferenceLengthMatches(v: string, m: int)
    requires ReferenceAt(v, m)
    ensures ReferenceLength(v) == m
  {
    var k := NameLength(v[2..]);
    assert v[m - 2] == v[m - 2..m][0] == ')';
    assert v[m - 1] == v[m - 2..m][1] == 's';
    assert v[0] == v[..2][0] && v[1] == v[..2][1];
    assert k == m - 4;
  }

  /** `_KEYCRE.sub('', v)`: every `%(name)s` reference removed, scanning left to right. */
  function DropReferences(v: string): string
    decreases |v|
  {
    if v == [] then []
    else
      var n := ReferenceLength(v);
      if n > 0 then DropReferences(v[n..]) else [v[0]] + DropReferences(v[1..])
  }

  /** `BasicInterpolation.before_set`: after removing `%%` and the references, no `%`
      may remain. */
  predicate InterpolationOk(v: string) {
    '%' !in DropReferences(DropEscapes(v))
  }

  /** Removing escapes only deletes characters. */
  lemma {:induction false} DropEscapesDeletes(v: string, c: char)
    requires c in DropEscapes(v)
    ensures c in v
    decreases |v|
  {
    if |v| >= 2 && v[0] == '%' && v[1] == '%' {
      DropEscapesDeletes(v[2..], c);
    } else if v != [] && c != v[0] {
      DropEscapesDeletes(v[1..], c);
    }
  }

  /** Removing references only deletes characters. */
  lemma {:induction false} DropReferencesDeletes(v: string, c: char)
    requires c in DropReferences(v)
    ensures c in v
    decreases |v|
  {
    if v != [] {
      var n := ReferenceLength(v);
      if n > 0 {
        DropReferencesDeletes(v[n..], c);
      } else if c != v[0] {
        DropReferencesDeletes(v[1..], c);
      }
    }
  }

  /** A value without `%` is always accepted. */
  lemma {:induction false} PlainValueAccepted(v: string)
    requires '%' !in v
    ensures InterpolationOk(v)
  {
    if '%' in DropReferences(DropEscapes(v)) {
      DropReferencesDeletes(DropEscapes(v), '%');
      DropEscapesDeletes(v, '%');
    }
  }

  /** A lone `%` at the end of otherwise plain text is rejected: `"100%"` raises. */
  lemma {:induction false} TrailingPercentRejected(a: string)
    requires '%' !in a
    ensures !InterpolationOk(a + "%")
  {
    KeepsPlain(a, "%");
  }

  /** Plain text in front of a tail is kept by both removals, so the tail alone
      decides: `DropEscapes` and `DropReferences` of `a + t` start with `a`. */
  lemma KeepsPlain(a: string, t: string)
    requires '%' !in a
    ensures DropEscapes(a + t) == a + DropEscapes(t)
    ensures DropReferences(a + DropEscapes(t)) == a + DropReferences(DropEscapes(t))
  {
    EscapesKeepPlain(a, t);
    ReferencesKeepPlain(a, DropEscapes(t));
  }

  lemma {:induction false} EscapesKeepPlain(a: string, t: string)
    requires '%' !in a
    ensures DropEscapes(a + t) == a + DropEscapes(t)
    decreases |a|
  {
    if a != [] {
      assert (a + t)[1..] == a[1..] + t;
      assert (a + t)[0] == a[0];
      EscapesKeepPlain(a[1..], t);
    } else {
      assert a + t == t;
    }
  }

  lemma {:induction false} ReferencesKeepPlain(a: string, u: string)
    requires '%' !in a
    ensures DropReferences(a + u) == a + DropReferences(u)
    decreases |a|
  {
    if a != [] {
      assert a + u == [a[0]] + (a[1..] + u);
      assert a[0] in a;
      ReferencesKeepPlainCons(a[0], a[1..] + u);
      ReferencesKeepPlain(a[1..], u);
      assert a == [a[0]] + a[1..];
    } else {
      assert a + u == u;
    }
  }

  /** A leading character other than `%` cannot start a reference. */
  lemma ReferencesKeepPlainCons(c: char, w: string)
    requires c != '%'
    ensures DropReferences([c] + w) == [c] + DropReferences(w)
  {
    var v := [c] + w;
    assert v[0] == c && v[1..] == w;
    assert ReferenceLength(v) == 0;
  }

  /** A well-formed reference after plain text is accepted: `"dir/%(home)s"` passes
      `config.set`, because the reference is removed before the test for `%`. */
  lemma {:induction false} ReferenceAccepted(a: string, name: string)
    requires '%' !in a && name != [] && ')' !in name && '%' !in name
    ensures InterpolationOk(a + "%(" + name + ")s")
  {
    var t := "%(" + name + ")s";
    assert a + "%(" + name + ")s" == a + t;
    ReferenceHasNoEscapes(name);
    EscapesKeepPlain(a, t);
    ReferencesKeepPlain(a, t);
    ReferenceDropped(name);
    assert DropReferences(DropEscapes(a + t)) == a + [];
  }

  /** A reference has no `%%` to remove. */
  lemma {:induction false} ReferenceHasNoEscapes(name: string)
    requires '%' !in name
    ensures DropEscapes("%(" + name + ")s") == "%(" + name + ")s"
  {
    var t := "%(" + name + ")s";
    var tail := t[1..];
    assert tail == "(" + name + ")s";
    EscapesKeepPlain(tail, []);
    assert tail + [] == tail;
    assert t[0] == '%' && t[1] == '(';
  }

  /** A whole reference is removed. */
  lemma {:induction false} ReferenceDropped(name: string)
    requires name != [] && ')' !in name
    ensures DropReferences("%(" + name + ")s") == []
  {
    var t := "%(" + name + ")s";
    assert t[..2] == "%(" && t[|t| - 2..] == ")s";
    forall i | 2 <= i < |t| - 2 ensures t[i] != ')' {
      assert t[i] == name[i - 2];
    }
    ReferenceLengthMatches(t, |t|);
    assert t[|t|..] == [];
  }

  /** A doubled `%%` after plain text is accepted: `"100%%"` stands for `100%`. */
  lemma {:induction false} EscapedPercentAccepted(a: string)
    requires '%' !in a
    ensures InterpolationOk(a + "%%")
  {
    KeepsPlain(a, "%%");
    assert "%%"[2..] == [];
    assert DropEscapes("%%") == [];
    assert DropReferences(a + []) == a + [] by {
      assert a + [] == a + DropEscapes([]);
      KeepsPlain(a, []);
    }
    PlainValueAccepted(a);
  }

  // ------------------------------------------------------- the environment loop

  /** One iteration of the environment loop: `config.set(section, key, value)`, which
      raises on a value with bad interpolation syntax. */
  function ApplyVar(cfg: Config, name: string, value: string): (r: Result<Config, ConfigError>)
    ensures r.Err? <==> Target(cfg, name).Some? && !InterpolationOk(value)
    ensures r.Ok? ==> r.value.sections == cfg.sections
    ensures !StartsWith(name, Prefix) ==> r == Ok(cfg)
    ensures Target(cfg, name).None? ==> r == Ok(cfg)
    ensures Target(cfg, name).Some? && r.Ok? ==> r.value.values == cfg.values[Target(cfg, name).value := value]
  {
    match Target(cfg, name)
    case None => Ok(cfg)
    case Some(k) =>
      if value != "" && !InterpolationOk(value) then Err(ValueError)
      else Ok(cfg.(values := cfg.values[k := value]))
  }

  /** The variable is skipped, or its value passes `config.set`. */
  predicate Accepted(cfg: Config, v: (string, string)) {
    Target(cfg, v.0).None? || InterpolationOk(v.1)
  }

  /** The whole loop over `os.environ`, in its iteration order (a left fold). The
      first rejected value aborts `read_config_and_environment`. */
  function ApplyEnvironment(cfg: Config, env: seq<(string, string)>): (r: Result<Config, ConfigError>)
    ensures r.Ok? ==> r.value.sections == cfg.sections
    ensures r.Ok? <==> AllAccepted(cfg, env)
    decreases |env|
  {
    if env == [] then Ok(cfg)
    else
      var last := env[|env| - 1];
      var prefix := env[..|env| - 1];
      AcceptedSnoc(cfg, env);
      match ApplyEnvironment(cfg, prefix)
      case Err(e) => Err(e)
      case Ok(c) =>
        TargetSections(c, cfg, last.0);
        ApplyVar(c, last.0, last.1)
  }

  /** Every variable is skipped or passes `config.set`. */
  predicate AllAccepted(cfg: Config, env: seq<(string, string)>) {
    forall i | 0 <= i < |env| :: Accepted(cfg, env[i])
  }

  lemma {:induction false} AcceptedSnoc(cfg: Config, env: seq<(string, string)>)
    requires env != []
    ensures AllAccepted(cfg, env) <==> AllAccepted(cfg, env[..|env| - 1]) && Accepted(cfg, env[|env| - 1])
  {
    var prefix := env[..|env| - 1];
    assert forall i | 0 <= i < |prefix| :: prefix[i] == env[i];
  }

  /** Where a variable is aimed depends on the file's sections only. */
  lemma {:induction false} TargetSections(c: Config, cfg: Config, name: string)
    requires c.sections == cfg.sections
    ensures Target(c, name) == Target(cfg, name)
  {
    assert Candidates(c) == Candidates(cfg);
  }

  /** An option none of the variables is aimed at keeps the file's value (or stays absent). */
  lemma {:induction false} ApplyEnvironmentUntouched(cfg: Config, env: seq<(string, string)>, k: (string, string))
    requires forall i | 0 <= i < |env| :: Target(cfg, env[i].0) != Some(k)
    ensures var r := ApplyEnvironment(cfg, env);
      r.Ok? ==> (k in r.value.values <==> k in cfg.values) && (k in cfg.values ==> r.value.values[k] == cfg.values[k])
    decreases |env|
  {
    if env != [] {
      ApplyEnvironmentUntouched(cfg, env[..|env| - 1], k);
    }
  }

  /** An option ends up with the value of the last variable aimed at it, once every
      value has passed `config.set`. */
  lemma {:induction false} ApplyEnvironmentLastWins(cfg: Config, env: seq<(string, string)>, k: (string, string), i: nat)
    requires i < |env| && Target(cfg, env[i].0) == Some(k)
    requires forall j | i < j < |env| :: Target(cfg, env[j].0) != Some(k)
    ensures var r := ApplyEnvironment(cfg, env); r.Ok? ==> k in r.value.values && r.value.values[k] == env[i].1
    decreases |env|
  {
    if i < |env| - 1 {
      ApplyEnvironmentLastWins(cfg, env[..|env| - 1], k, i);
    }
  }

  /** Lower-casing leaves a name without capitals alone. */
  lemma {:induction false} LowerNoCapitals(s: string)
    requires forall i | 0 <= i < |s| :: !('A' <= s[i] <= 'Z')
    ensures Lower(s) == s
  {
  }

  /** The chosen section is the last listed prefix, not the longest: with sections
      `core` then `co`, `DJ_core_verbosity` is aimed at section `co`, option `e_verbosity`. */
  lemma {:induction false} LastPrefixNotLongest()
    ensures Target(Config(["core", "co"], map[]), "DJ_core_verbosity") == Some(("co", "e_verbosity"))
  {
    var cfg := Config(["core", "co"], map[]);
    var name := "DJ_core_verbosity";
    var rest := name[|Prefix|..];
    assert StartsWith(name, Prefix) && rest == "core_verbosity";
    assert Candidates(cfg) == ["core", "co", "DEFAULT"];
    CoreVerbosityScan();
    CoreVerbosityKey();
  }

  /** Both `core` and `co` start `core_verbosity`; the scan keeps the later one. */
  lemma {:induction false} CoreVerbosityScan()
    ensures Scan(["core", "co", "DEFAULT"], "core_verbosity", None) == Some("co")
  {
    var cands := ["core", "co", "DEFAULT"];
    var rest := "core_verbosity";
    assert !StartsWith(rest, DefaultSection) by { assert rest[0] != DefaultSection[0]; }
    assert LastPrefixIndex(cands, rest) == Some(1) by {
      assert StartsWith(rest, "core") && StartsWith(rest, "co");
      assert cands[1..] == ["co", "DEFAULT"];
      assert cands[1..][1..] == ["DEFAULT"];
      assert cands[1..][1..][1..] == [];
    }
    ScanPicksLastPrefix(cands, rest, None);
  }

  /** After the section `co` and its `_`, the option is `e_verbosity`. */
  lemma {:induction false} CoreVerbosityKey()
    ensures Lower(KeyAfter("core_verbosity", "co")) == "e_verbosity"
  {
    var key := KeyAfter("core_verbosity", "co");
    assert key == "e_verbosity";
    LowerNoCapitals(key);
  }

}

/**
 * Command-line and prompt-list handling shared by the two chat drivers
 * (gemini-auto.js and gpt-auto.js carry identical copies): argument
 * parsing, integer options, the recursive prompt-array search, prompt
 * normalisation and the input-loading error classification.
 */
module ChatInput {
  import opened Wrappers
  import opened Text
  import opened Json

  // ---------------------------------------------------------------
  // parseArgs
  // ---------------------------------------------------------------

  /** An argument beginning with `--` is an option; anything else is positional. */
  predicate IsOption(a: string)
  {
    StartsWith(a, "--")
  }

  /** The key/value pair an option carries: it needs a first `=` after the leading dashes and a non-empty key. */
  function OptionPair(a: string): Option<(string, string)>
  {
    if !IsOption(a) then None
    else match IndexOf(a, "=")
      case None => None
      case Some(eq) => if eq > 2 then Some((a[2..eq], a[eq + 1..])) else None
  }

  /** The set of option arguments, exactly as written. */
  function Flags(argv: seq<string>): set<string>
  {
    set a | a in argv && IsOption(a)
  }

  /** The key/value map: processed left to right, so a later key overwrites an earlier one. */
  function Pairs(argv: seq<string>): map<string, string>
  {
    PairsBy(argv, OptionPair)
  }

  /** The same fold for any way `pair` of reading a key/value pair off an argument. */
  function PairsBy(argv: seq<string>, pair: string -> Option<(string, string)>): map<string, string>
  {
    if argv == [] then map[]
    else
      var m := PairsBy(argv[..|argv| - 1], pair);
      match pair(argv[|argv| - 1])
      case None => m
      case Some(kv) => m[kv.0 := kv.1]
  }

  /** The non-option arguments, in order. */
  function Positionals(argv: seq<string>): seq<string>
  {
    if argv == [] then []
    else Positionals(argv[..|argv| - 1]) + (if IsOption(argv[|argv| - 1]) then [] else [argv[|argv| - 1]])
  }

  datatype Args = Args(flags: set<string>, kv: map<string, string>, positionals: seq<string>)

  /** parseArgs: one pass over the arguments, adding to the flag set, the key/value map or the positional list. */
  method ParseArgs(argv: seq<string>) returns (r: Args)
    ensures r.flags == Flags(argv)
    ensures r.kv == Pairs(argv)
    ensures r.positionals == Positionals(argv)
  {
    var flags: set<string> := {};
    var kv: map<string, string> := map[];
    var positionals: seq<string> := [];
    for i := 0 to |argv|
      invariant flags == Flags(argv[..i])
      invariant kv == Pairs(argv[..i])
      invariant positionals == Positionals(argv[..i])
    {
      var a := argv[i];
      assert argv[..i + 1][..i] == argv[..i];
      if StartsWith(a, "--") {
        flags := flags + {a};
        var eq := IndexOf(a, "=");
        if eq.Some? && eq.value > 2 {
          kv := kv[a[2..eq.value] := a[eq.value + 1..]];
        }
      } else {
        positionals := positionals + [a];
      }
      assert Flags(argv[..i + 1]) == Flags(argv[..i]) + (if IsOption(a) then {a} else {});
    }
    assert argv[..|argv|] == argv;
    r := Args(flags, kv, positionals);
  }

  /** Writing `--key=value` and parsing it back gives the same pair, for every key without `=`. */
  lemma OptionPairRoundTrip(k: string, v: string)
    requires k != [] && forall i :: 0 <= i < |k| ==> k[i] != '='
    ensures OptionPair("--" + k + "=" + v) == Some((k, v))
  {
    var a := "--" + k + "=" + v;
    assert a[..2] == "--";
    assert OccursAt(a, "=", 2 + |k|);
    forall j | 0 <= j < 2 + |k|
      ensures !OccursAt(a, "=", j)
    {
      assert a[j..j + 1][0] == a[j];
    }
    assert IndexOf(a, "=") == Some(2 + |k|);
    assert a[2..2 + |k|] == k;
    assert a[2 + |k| + 1..] == v;
  }

  /** Every pair found comes from an argument spelled `--key=value` with a non-empty key free of `=`. */
  lemma OptionPairShape(a: string)
    requires OptionPair(a).Some?
    ensures var (k, v) := OptionPair(a).value;
      a == "--" + k + "=" + v && k != [] && forall i :: 0 <= i < |k| ==> k[i] != '='
  {
    var eq := IndexOf(a, "=").value;
    var k := a[2..eq];
    forall i | 0 <= i < |k|
      ensures k[i] != '='
    {
      assert a[2 + i..2 + i + 1][0] == a[2 + i];
      assert !OccursAt(a, "=", 2 + i);
    }
    assert a[eq..eq + 1] == "=";
    assert a == a[..2] + a[2..eq] + a[eq..eq + 1] + a[eq + 1..];
  }

  /** A key is in the map exactly when some argument carries it. */
  lemma PairsDomain(argv: seq<string>, k: string)
    ensures k in Pairs(argv) <==>
      exists i :: 0 <= i < |argv| && OptionPair(argv[i]).Some? && OptionPair(argv[i]).value.0 == k
  {
    PairsByDomain(argv, OptionPair, k);
  }

  lemma {:induction false} PairsByDomain(argv: seq<string>, pair: string -> Option<(string, string)>, k: string)
    ensures k in PairsBy(argv, pair) <==>
      exists i :: 0 <= i < |argv| && pair(argv[i]).Some? && pair(argv[i]).value.0 == k
  {
    if argv != [] {
      var n := |argv| - 1;
      var init := argv[..n];
      PairsByDomain(init, pair, k);
      if k in PairsBy(init, pair) {
        var i :| 0 <= i < |init| && pair(init[i]).Some? && pair(init[i]).value.0 == k;
        assert argv[i] == init[i];
      }
      if exists i :: 0 <= i < |argv| && pair(argv[i]).Some? && pair(argv[i]).value.0 == k {
        var i :| 0 <= i < |argv| && pair(argv[i]).Some? && pair(argv[i]).value.0 == k;
        if i < n {
          assert init[i] == argv[i];
        }
      }
    }
  }

  /** The value kept for a key is the one from the last argument that carries it. */
  lemma {:induction false} PairsLastWins(argv: seq<string>, i: nat, k: string, v: string)
    requires i < |argv| && OptionPair(argv[i]) == Some((k, v))
    requires forall j :: i < j < |argv| && OptionPair(argv[j]).Some? ==> OptionPair(argv[j]).value.0 != k
    ensures k in Pairs(argv) && Pairs(argv)[k] == v
  {
    if i < |argv| - 1 {
      var init := argv[..|argv| - 1];
      assert init[i] == argv[i];
      PairsLastWins(init, i, k, v);
    }
  }

  /** The positional list holds exactly the non-option arguments. */
  lemma {:induction false} PositionalsAreNonOptions(argv: seq<string>)
    ensures forall a :: a in Positionals(argv) <==> a in argv && !IsOption(a)
  {
    if argv != [] {
      var init := argv[..|argv| - 1];
      PositionalsAreNonOptions(init);
      assert argv == init + [argv[|argv| - 1]];
    }
  }

  // ---------------------------------------------------------------
  // toInt: parseInt(String(v ?? ''), 10), falling back to a default
  // ---------------------------------------------------------------

  /** The longest prefix of `s` made of decimal digits. */
  function LeadingDigits(s: string): (r: string)
    ensures |r| <= |s| && r == s[..|r|]
    ensures forall i :: 0 <= i < |r| ==> IsDigit(s[i])
    ensures |r| == |s| || !IsDigit(s[|r|])
  {
    if s != [] && IsDigit(s[0]) then [s[0]] + LeadingDigits(s[1..]) else []
  }

  /** parseInt with radix 10: leading whitespace, an optional sign, then at least one digit. */
  function ParseInt(s: string): Option<int>
  {
    ParseSigned(TrimStart(s))
  }

  /** parseInt after the whitespace: an optional sign, then the digits. */
  function ParseSigned(t: string): Option<int>
  {
    if |t| > 0 && (t[0] == '-' || t[0] == '+') then
      match ParseDigits(t[1..])
      case None => None
      case Some(n) => Some(if t[0] == '-' then 0 - n else n)
    else
      match ParseDigits(t)
      case None => None
      case Some(n) => Some(n)
  }

  /** The value of the leading digits, if there is at least one. */
  function ParseDigits(body: string): Option<nat>
  {
    var ds := LeadingDigits(body);
    if ds == [] then None else Some(DigitsValue(ds))
  }

  /** toInt(v, def): the parsed integer, or `def` when there is nothing to parse. */
  function ToInt(v: Option<string>, def: int): int
  {
    match ParseInt(if v.Some? then v.value else "")
    case Some(n) => n
    case None => def
  }

  /** The digits rendered by `String(n)` read back as `n`, whatever non-digit text follows. */
  lemma ToIntReadsRenderedInt(n: int, rest: string, def: int)
    requires rest == [] || !IsDigit(rest[0])
    ensures ToInt(Some(IntString(n) + rest), def) == n
  {
    if n < 0 {
      var ds := NatString(-n);
      assert IntString(n) + rest == "-" + (ds + rest);
      ParseIntNegative(ds, rest);
      ParseIntIsSigned("-" + (ds + rest));
    } else {
      var ds := NatString(n);
      assert IntString(n) + rest == ds + rest;
      ParseIntUnsigned(ds, rest);
      ParseIntIsSigned(ds + rest);
    }
  }

  /** parseInt reads the sign and digits after the leading whitespace. */
  lemma ParseIntIsSigned(s: string)
    ensures ParseInt(s) == ParseSigned(TrimStart(s))
  {
  }

  /** After the whitespace, a minus sign, digits, then a non-digit: parseInt reads the negated digits. */
  lemma ParseIntNegative(ds: string, rest: string)
    requires ds != [] && forall i :: 0 <= i < |ds| ==> IsDigit(ds[i])
    requires rest == [] || !IsDigit(rest[0])
    ensures ParseSigned(TrimStart("-" + (ds + rest))) == Some(0 - DigitsValue(ds))
  {
    var s := "-" + (ds + rest);
    assert s[0] == '-';
    assert TrimStart(s) == s;
    LeadingDigitsOfDigits(ds, rest);
    assert s[1..] == ds + rest;
    ParseSignedNegative(s, DigitsValue(ds));
  }

  /** After the whitespace, digits, then a non-digit: parseInt reads the digits. */
  lemma ParseIntUnsigned(ds: string, rest: string)
    requires ds != [] && forall i :: 0 <= i < |ds| ==> IsDigit(ds[i])
    requires rest == [] || !IsDigit(rest[0])
    ensures ParseSigned(TrimStart(ds + rest)) == Some(DigitsValue(ds))
  {
    var s := ds + rest;
    assert s[0] == ds[0];
    assert TrimStart(s) == s;
    LeadingDigitsOfDigits(ds, rest);
    ParseSignedUnsigned(s, DigitsValue(ds));
  }

  /** A minus sign negates the digits after it. */
  lemma ParseSignedNegative(t: string, n: nat)
    requires |t| > 0 && t[0] == '-' && ParseDigits(t[1..]) == Some(n)
    ensures ParseSigned(t) == Some(0 - n)
  {
  }

  /** Without a sign the digits are read as they are. */
  lemma ParseSignedUnsigned(t: string, n: nat)
    requires |t| > 0 && IsDigit(t[0]) && ParseDigits(t) == Some(n)
    ensures ParseSigned(t) == Some(n)
  {
  }

  lemma {:induction false} LeadingDigitsOfDigits(ds: string, rest: string)
    requires forall i :: 0 <= i < |ds| ==> IsDigit(ds[i])
    requires rest == [] || !IsDigit(rest[0])
    ensures LeadingDigits(ds + rest) == ds
  {
    if ds != [] {
      assert (ds + rest)[1..] == ds[1..] + rest;
      LeadingDigitsOfDigits(ds[1..], rest);
      assert [ds[0]] + ds[1..] == ds;
    } else {
      assert ds + rest == rest;
    }
  }

  /** A value with no digit at all, or no value, yields the default. */
  lemma ToIntWithoutDigits(v: Option<string>, def: int)
    requires v.Some? ==> forall i :: 0 <= i < |v.value| ==> !IsDigit(v.value[i])
    ensures ToInt(v, def) == def
  {
    var s := if v.Some? then v.value else "";
    var t := TrimStart(s);
    var body := if |t| > 0 && (t[0] == '-' || t[0] == '+') then t[1..] else t;
    if body != [] {
      assert body[0] in s;
    }
  }

  // ---------------------------------------------------------------
  // deepFindPrompts
  // ---------------------------------------------------------------

  /** Remaining recursion budget below the depth cut-off of 12. */
  function Budget(depth: nat): nat
  {
    if depth <= 13 then 13 - depth else 0
  }

  /** An array whose first element is an object with a `text` or an `index` key looks like a prompt list. */
  predicate LooksLikePromptList(a: seq<Json>)
  {
    |a| > 0 && a[0].JObj? && (HasKey(a[0], "text") || HasKey(a[0], "index"))
  }

  /** `Array.isArray(v.prompts) ? v.prompts : undefined` */
  function PromptsField(v: Json): Option<seq<Json>>
  {
    match Member(v, "prompts")
    case Some(JArr(a)) => Some(a)
    case _ => None
  }

  /** The prompt list carried by the value stored under `key`, when that value is truthy. */
  function NestedPrompts(x: Json, key: string): Option<seq<Json>>
  {
    if TruthyMember(x, key) then PromptsField(Member(x, key).value) else None
  }

  /** `x.item.json.prompts`, each step guarded by truthiness. */
  function ItemJsonPrompts(x: Json): Option<seq<Json>>
  {
    if TruthyMember(x, "item") then NestedPrompts(Member(x, "item").value, "json") else None
  }

  /** deepFindPrompts(x, depth) */
  function DeepFind(x: Json, depth: nat): Option<seq<Json>>
    decreases Budget(depth), 1, 0
  {
    if depth > 12 || x == JNull then None
    else match x
      case JArr(a) =>
        if LooksLikePromptList(a) then Some(a) else FindInElems(a, depth + 1)
      case JObj(fs) =>
        if PromptsField(x).Some? then PromptsField(x)
        else if NestedPrompts(x, "json").Some? then NestedPrompts(x, "json")
        else if NestedPrompts(x, "data").Some? then NestedPrompts(x, "data")
        else if ItemJsonPrompts(x).Some? then ItemJsonPrompts(x)
        else
          var viaItems :=
            if TruthyMember(x, "items") && Member(x, "items").value.JArr?
            then DeepFind(Member(x, "items").value, depth + 1) else None;
          if viaItems.Some? then viaItems else FindInFields(fs, depth + 1)
      case _ => None
  }

  /** The first element, in order, in which the search succeeds. */
  function FindInElems(xs: seq<Json>, depth: nat): Option<seq<Json>>
    decreases Budget(depth) + 1, 0, |xs|
  {
    if xs == [] then None
    else
      match DeepFind(xs[0], depth)
      case Some(a) => Some(a)
      case None => FindInElems(xs[1..], depth)
  }

  /** The first property value, in key order, in which the search succeeds. */
  function FindInFields(fs: seq<(string, Json)>, depth: nat): Option<seq<Json>>
    decreases Budget(depth) + 1, 0, |fs|
  {
    if fs == [] then None
    else
      match DeepFind(fs[0].1, depth)
      case Some(a) => Some(a)
      case None => FindInFields(fs[1..], depth)
  }

  /** `v` is `x` itself or sits somewhere inside it. */
  predicate Within(v: Json, x: Json)
  {
    v == x ||
    (x.JArr? && exists i :: 0 <= i < |x.elems| && Within(v, x.elems[i])) ||
    (x.JObj? && exists i :: 0 <= i < |x.fields| && Within(v, x.fields[i].1))
  }

  lemma WithinProperty(x: Json, key: string, v: Json)
    requires x.JObj? && Member(x, key) == Some(v)
    ensures Within(v, x)
  {
    var i :| 0 <= i < |x.fields| && x.fields[i] == (key, v);
    assert Within(v, x.fields[i].1);
  }

  lemma WithinPromptsField(x: Json)
    requires PromptsField(x).Some?
    ensures Within(JArr(PromptsField(x).value), x)
  {
    WithinProperty(x, "prompts", JArr(PromptsField(x).value));
  }

  lemma WithinTrans(u: Json, v: Json, x: Json)
    requires Within(u, v) && Within(v, x)
    ensures Within(u, x)
    decreases x
  {
    if v != x {
      if x.JArr? && exists i :: 0 <= i < |x.elems| && Within(v, x.elems[i]) {
        var i :| 0 <= i < |x.elems| && Within(v, x.elems[i]);
        WithinTrans(u, v, x.elems[i]);
      } else {
        var i :| 0 <= i < |x.fields| && Within(v, x.fields[i].1);
        WithinTrans(u, v, x.fields[i].1);
      }
    }
  }

  lemma WithinNested(x: Json, key: string)
    requires NestedPrompts(x, key).Some?
    ensures Within(JArr(NestedPrompts(x, key).value), x)
  {
    var v := Member(x, key).value;
    WithinProperty(x, key, v);
    WithinPromptsField(v);
    WithinTrans(JArr(NestedPrompts(x, key).value), v, x);
  }

  /** Whatever the search returns is an array that really occurs in the input. */
  lemma {:induction false} DeepFindWithin(x: Json, depth: nat)
    requires DeepFind(x, depth).Some?
    ensures Within(JArr(DeepFind(x, depth).value), x)
    decreases Budget(depth), 1, 0
  {
    var a := DeepFind(x, depth).value;
    match x
    case JArr(xs) =>
      if !LooksLikePromptList(xs) {
        FindInElemsWithin(xs, depth + 1);
        var i :| 0 <= i < |xs| && Within(JArr(a), xs[i]);
      }
    case JObj(fs) =>
      if PromptsField(x).Some? {
        WithinPromptsField(x);
      } else if NestedPrompts(x, "json").Some? {
        WithinNested(x, "json");
      } else if NestedPrompts(x, "data").Some? {
        WithinNested(x, "data");
      } else if ItemJsonPrompts(x).Some? {
        var item := Member(x, "item").value;
        WithinProperty(x, "item", item);
        WithinNested(item, "json");
        WithinTrans(JArr(a), item, x);
      } else {
        var viaItems :=
          if TruthyMember(x, "items") && Member(x, "items").value.JArr?
          then DeepFind(Member(x, "items").value, depth + 1) else None;
        if viaItems.Some? {
          var items := Member(x, "items").value;
          DeepFindWithin(items, depth + 1);
          WithinProperty(x, "items", items);
          WithinTrans(JArr(a), items, x);
        } else {
          FindInFieldsWithin(fs, depth + 1);
          var i :| 0 <= i < |fs| && Within(JArr(a), fs[i].1);
          assert Within(JArr(a), x.fields[i].1);
        }
      }
  }

  lemma {:induction false} FindInElemsWithin(xs: seq<Json>, depth: nat)
    requires FindInElems(xs, depth).Some?
    ensures exists i :: 0 <= i < |xs| && Within(JArr(FindInElems(xs, depth).value), xs[i])
    decreases Budget(depth) + 1, 0, |xs|
  {
    var a := FindInElems(xs, depth).value;
    if DeepFind(xs[0], depth).Some? {
      DeepFindWithin(xs[0], depth);
    } else {
      FindInElemsWithin(xs[1..], depth);
      var i :| 0 <= i < |xs[1..]| && Within(JArr(a), xs[1..][i]);
      assert xs[1..][i] == xs[i + 1];
    }
  }

  lemma {:induction false} FindInFieldsWithin(fs: seq<(string, Json)>, depth: nat)
    requires FindInFields(fs, depth).Some?
    ensures exists i :: 0 <= i < |fs| && Within(JArr(FindInFields(fs, depth).value), fs[i].1)
    decreases Budget(depth) + 1, 0, |fs|
  {
    var a := FindInFields(fs, depth).value;
    if DeepFind(fs[0].1, depth).Some? {
      DeepFindWithin(fs[0].1, depth);
    } else {
      FindInFieldsWithin(fs[1..], depth);
      var i :| 0 <= i < |fs[1..]| && Within(JArr(a), fs[1..][i].1);
      assert fs[1..][i] == fs[i + 1];
    }
  }

  /** The wrappers the search recognises, in priority order: `prompts`, `json.prompts`, `data.prompts`, `item.json.prompts`. */
  lemma DeepFindWrappers(x: Json, depth: nat)
    requires depth <= 12 && x.JObj?
    ensures PromptsField(x).Some? ==> DeepFind(x, depth) == PromptsField(x)
    ensures PromptsField(x).None? && NestedPrompts(x, "json").Some? ==> DeepFind(x, depth) == NestedPrompts(x, "json")
    ensures PromptsField(x).None? && NestedPrompts(x, "json").None? && NestedPrompts(x, "data").Some?
      ==> DeepFind(x, depth) == NestedPrompts(x, "data")
    ensures (PromptsField(x).None? && NestedPrompts(x, "json").None? && NestedPrompts(x, "data").None? &&
             ItemJsonPrompts(x).Some?) ==> DeepFind(x, depth) == ItemJsonPrompts(x)
  {
  }

  /** Beyond nesting depth 12, and on scalars, nothing is found. */
  lemma DeepFindGivesUp(x: Json, depth: nat)
    requires depth > 12 || !(x.JArr? || x.JObj?)
    ensures DeepFind(x, depth).None?
  {
  }

  // ---------------------------------------------------------------
  // normalizePrompts and loadPromptsFromInputText
  // ---------------------------------------------------------------

  /** A normalised prompt; `mode` is only produced by the Gemini driver. */
  datatype Prompt = Prompt(index: Json, text: string, mode: Option<string>)

  /** The normalised form of the prompt at position `i` (zero based). */
  function NormalizeOne(p: Json, i: nat): Prompt
  {
    Prompt(
      if HasNonNull(p, "index") then Member(p, "index").value else JNum(i + 1),
      if HasNonNull(p, "text") then JsString(Member(p, "text").value) else "",
      if TruthyMember(p, "mode") then Some(JsString(Member(p, "mode").value)) else None)
  }

  /** normalizePrompts of gemini-auto.js: one prompt per element, in order. */
  function Normalize(ps: seq<Json>): (r: seq<Prompt>)
    ensures |r| == |ps|
  {
    seq(|ps|, i requires 0 <= i < |ps| => NormalizeOne(ps[i], i))
  }

  /** normalizePrompts of gpt-auto.js: the same, without a mode. */
  function NormalizeGpt(ps: seq<Json>): (r: seq<Prompt>)
    ensures |r| == |ps|
  {
    seq(|ps|, i requires 0 <= i < |ps| => Prompt(NormalizeOne(ps[i], i).index, NormalizeOne(ps[i], i).text, None))
  }

  /** The JSON object a normalised prompt stands for. */
  function PromptJson(p: Prompt): Json
  {
    JObj([("index", p.index), ("text", JStr(p.text)), ("mode", if p.mode.Some? then JStr(p.mode.value) else JNull)])
  }

  /** Normalising the JSON form of a normalised prompt gives it back, except that an empty mode is dropped. */
  lemma NormalizePromptJson(p: Prompt, i: nat)
    requires p.index != JNull
    ensures NormalizeOne(PromptJson(p), i) == p.(mode := if p.mode == Some("") then None else p.mode)
  {
    var x := PromptJson(p);
    var fs := x.fields;
    assert fs[0].0 == "index" && fs[1].0 == "text" && fs[2].0 == "mode";
    assert Get(fs, "index") == Some(p.index);
    assert Get(fs[1..], "text") == Some(JStr(p.text));
    assert Get(fs, "text") == Some(JStr(p.text));
    assert Get(fs[1..][1..], "mode") == Some(fs[2].1);
    assert Get(fs[1..], "mode") == Some(fs[2].1);
    assert Get(fs, "mode") == Some(fs[2].1);
    assert HasNonNull(x, "index") && Member(x, "index").value == p.index;
    assert HasNonNull(x, "text") && JsString(Member(x, "text").value) == p.text;
    assert TruthyMember(x, "mode") <==> p.mode.Some? && p.mode.value != "";
  }

  /**
   * Normalising is stable: feeding the normalised prompts back in keeps every
   * index, text and non-empty mode (an empty mode string is falsy and is dropped).
   */
  lemma NormalizeStable(ps: seq<Json>)
    ensures var q := Normalize(ps);
      var q2 := Normalize(seq(|q|, i requires 0 <= i < |q| => PromptJson(q[i])));
      |q2| == |q| &&
      forall i :: 0 <= i < |q| ==>
        q2[i] == q[i].(mode := if q[i].mode == Some("") then None else q[i].mode)
  {
    var q := Normalize(ps);
    var js := seq(|q|, i requires 0 <= i < |q| => PromptJson(q[i]));
    forall i | 0 <= i < |q|
      ensures Normalize(js)[i] == q[i].(mode := if q[i].mode == Some("") then None else q[i].mode)
    {
      assert q[i] == NormalizeOne(ps[i], i);
      NormalizePromptJson(q[i], i);
    }
  }

  /** Defaults and explicit values: an explicit non-null index and text survive, a missing index becomes the position plus one. */
  lemma NormalizeFields(ps: seq<Json>, i: nat)
    requires i < |ps|
    ensures Normalize(ps)[i].index == (if HasNonNull(ps[i], "index") then Member(ps[i], "index").value else JNum(i + 1))
    ensures Normalize(ps)[i].index != JNull
    ensures !HasNonNull(ps[i], "text") ==> Normalize(ps)[i].text == ""
    ensures Normalize(ps)[i].mode.Some? <==> TruthyMember(ps[i], "mode")
    ensures NormalizeGpt(ps)[i] == Normalize(ps)[i].(mode := None)
  {
  }

  /** loadPromptsFromInputText, after JSON.parse has produced `parsed`. */
  function LoadPrompts(parsed: Json, withMode: bool): Result<seq<Prompt>>
  {
    match DeepFind(parsed, 0)
    case None => Err("Prompts not found in input")
    case Some(a) => Ok(if withMode then Normalize(a) else NormalizeGpt(a))
  }

  // ---------------------------------------------------------------
  // readInputFromArgs
  // ---------------------------------------------------------------

  datatype Input =
    | Loaded(prompts: seq<Prompt>, flags: set<string>, kv: map<string, string>)
    | InputError(error: string, message: Option<string>, filePath: Option<string>, flags: set<string>, kv: map<string, string>)

  /**
   * readInputFromArgs over the arguments after the script name, the files that
   * exist (path to the outcome of reading them as UTF-8: the contents, or the
   * message readFileSync throws), JSON.parse (a parsed value or the exception
   * message) and base64 decoding.
   */
  function ReadInput(argv: seq<string>, files: map<string, Result<string>>, parse: string -> Result<Json>,
                     decode64: string -> string, withMode: bool): Input
  {
    var flags := Flags(argv);
    var kv := Pairs(argv);
    var pos := Positionals(argv);
    if pos == [] || pos[0] == "" then InputError("No input provided", None, None, flags, kv)
    else
      var arg := pos[0];
      if "--file" in flags && arg !in files then InputError("Input file not found", None, Some(arg), flags, kv)
      else
        var raw := if "--file" in flags then files[arg] else Ok(arg);
        match raw
        case Err(m) => InputError("Invalid JSON", Some(m), None, flags, kv)
        case Ok(t) =>
          var text := if "--base64" in flags then decode64(t) else t;
          match parse(text)
          case Err(m) => InputError("Invalid JSON", Some(m), None, flags, kv)
          case Ok(j) =>
            match LoadPrompts(j, withMode)
            case Err(e) => InputError(e, None, None, flags, kv)
            case Ok(ps) => Loaded(ps, flags, kv)
  }

  /**
   * What reading the input produces before JSON.parse: the argument itself or
   * the contents of the file it names, then base64-decoded on request, or the
   * message of the failed read.
   */
  function InputText(argv: seq<string>, files: map<string, Result<string>>, decode64: string -> string): Result<string>
    requires Positionals(argv) != []
    requires "--file" in Flags(argv) ==> Positionals(argv)[0] in files
  {
    var arg := Positionals(argv)[0];
    var raw := if "--file" in Flags(argv) then files[arg] else Ok(arg);
    match raw
    case Err(m) => Err(m)
    case Ok(t) => Ok(if "--base64" in Flags(argv) then decode64(t) else t)
  }

  /** The input was given and, with `--file`, names an existing file. */
  predicate InputPresent(argv: seq<string>, files: map<string, Result<string>>)
  {
    var pos := Positionals(argv);
    pos != [] && pos[0] != "" && ("--file" in Flags(argv) ==> pos[0] in files)
  }

  /** The value JSON.parse gives for the input, or the message of the read or of the parse that failed. */
  function ParsedInput(argv: seq<string>, files: map<string, Result<string>>, parse: string -> Result<Json>,
                       decode64: string -> string): Result<Json>
    requires InputPresent(argv, files)
  {
    match InputText(argv, files, decode64)
    case Err(m) => Err(m)
    case Ok(t) => parse(t)
  }

  /**
   * Each error of readInputFromArgs happens exactly under its own condition,
   * checked in order, with the message it carries; otherwise the prompts found
   * load, normalised.
   */
  lemma ReadInputOutcomes(argv: seq<string>, files: map<string, Result<string>>, parse: string -> Result<Json>,
                          decode64: string -> string, withMode: bool)
    ensures var r := ReadInput(argv, files, parse, decode64, withMode);
      var pos := Positionals(argv);
      r.flags == Flags(argv) && r.kv == Pairs(argv) &&
      (r == InputError("No input provided", None, None, r.flags, r.kv) <==> pos == [] || pos[0] == "") &&
      (r.InputError? && r.error == "Input file not found" <==>
         pos != [] && pos[0] != "" && "--file" in Flags(argv) && pos[0] !in files) &&
      (r.InputError? && r.error == "Input file not found" ==> r.filePath == Some(pos[0])) &&
      (r.InputError? && r.error == "Invalid JSON" <==>
         InputPresent(argv, files) && ParsedInput(argv, files, parse, decode64).Err?) &&
      (r.InputError? && r.error == "Invalid JSON" ==>
         r.message == Some(ParsedInput(argv, files, parse, decode64).msg) && r.filePath == None) &&
      (r.InputError? && r.error == "Prompts not found in input" <==>
         InputPresent(argv, files) && ParsedInput(argv, files, parse, decode64).Ok? &&
         DeepFind(ParsedInput(argv, files, parse, decode64).value, 0).None?) &&
      (r.Loaded? <==>
         InputPresent(argv, files) && ParsedInput(argv, files, parse, decode64).Ok? &&
         DeepFind(ParsedInput(argv, files, parse, decode64).value, 0).Some?) &&
      (r.Loaded? ==>
         var a := DeepFind(ParsedInput(argv, files, parse, decode64).value, 0).value;
         r.prompts == (if withMode then Normalize(a) else NormalizeGpt(a)))
  {
    if InputPresent(argv, files) {
      var parsed := ParsedInput(argv, files, parse, decode64);
      if parsed.Ok? {
        var r := ReadInput(argv, files, parse, decode64, withMode);
        match DeepFind(parsed.value, 0)
        case None =>
          assert r == InputError("Prompts not found in input", None, None, Flags(argv), Pairs(argv));
        case Some(a) =>
          assert r == Loaded(if withMode then Normalize(a) else NormalizeGpt(a), Flags(argv), Pairs(argv));
      }
    }
  }

  // ---------------------------------------------------------------
  // Settings read from the key/value options
  // ---------------------------------------------------------------

  /** The per-driver defaults: Gemini (gemini-auto.js:197-203) and ChatGPT (gpt-auto.js:190-196). */
  datatype Defaults = Defaults(cookies: string, profile: string, goto: string,
                               timeout: int, answerWait: int, stabilize: int, screenshot: string)

  const GeminiDefaults := Defaults("/home/node/scripts/gemini-cookies.json", "/home/node/scripts/gemini-browser-profile",
                                   "https://gemini.google.com/app", 180000, 180000, 10000,
                                   "/home/node/scripts/gemini-auto-result.png")

  const GptDefaults := Defaults("/home/node/scripts/gpt-cookies.json", "/home/node/scripts/gpt-browser-profile",
                                "https://chatgpt.com/", 180000, 300000, 6000,
                                "/home/node/scripts/gpt-auto-result.png")

  datatype Settings = Settings(cookies: string, profile: string, goto: string,
                               timeout: int, answerWait: int, stabilize: int, screenshot: string,
                               doScreenshot: bool, cdp: Option<string>, headless: bool, mode: Option<string>)

  /** `kv[key] || def` */
  function OrDefault(kv: map<string, string>, key: string, def: string): string
  {
    if key in kv && kv[key] != "" then kv[key] else def
  }

  function Lookup(kv: map<string, string>, key: string): Option<string>
  {
    if key in kv then Some(kv[key]) else None
  }

  /** The settings a driver derives from the parsed arguments. */
  function SettingsOf(a: Args, d: Defaults): Settings
  {
    Settings(
      OrDefault(a.kv, "cookies", d.cookies), OrDefault(a.kv, "profile", d.profile), OrDefault(a.kv, "goto", d.goto),
      ToInt(Lookup(a.kv, "timeout"), d.timeout), ToInt(Lookup(a.kv, "answerWait"), d.answerWait),
      ToInt(Lookup(a.kv, "stabilize"), d.stabilize), OrDefault(a.kv, "screenshot", d.screenshot),
      "--noScreenshot" !in a.flags,
      if "cdp" in a.kv && a.kv["cdp"] != "" then Some(a.kv["cdp"]) else None,
      "--headful" !in a.flags,
      if "mode" in a.kv && a.kv["mode"] != "" then Some(a.kv["mode"]) else None)
  }

  /** Without options every setting takes the driver's default. */
  lemma SettingsDefaultsWithoutOptions(argv: seq<string>, d: Defaults)
    requires forall i :: 0 <= i < |argv| ==> !IsOption(argv[i])
    ensures var s := SettingsOf(Args(Flags(argv), Pairs(argv), Positionals(argv)), d);
      s.goto == d.goto && s.timeout == d.timeout && s.answerWait == d.answerWait &&
      s.stabilize == d.stabilize && s.doScreenshot && s.headless && s.cdp.None? && s.mode.None?
  {
    NoOptionsNoPairs(argv);
    SettingsOfNoOptions(Args(Flags(argv), Pairs(argv), Positionals(argv)), d);
  }

  /** Settings from arguments that carry neither flags nor key/value pairs are the defaults. */
  lemma SettingsOfNoOptions(a: Args, d: Defaults)
    requires a.kv == map[] && a.flags == {}
    ensures var s := SettingsOf(a, d);
      s.goto == d.goto && s.timeout == d.timeout && s.answerWait == d.answerWait &&
      s.stabilize == d.stabilize && s.doScreenshot && s.headless && s.cdp.None? && s.mode.None?
  {
    ToIntWithoutDigits(None, d.timeout);
    ToIntWithoutDigits(None, d.answerWait);
    ToIntWithoutDigits(None, d.stabilize);
  }

  lemma {:induction false} NoOptionsNoPairs(argv: seq<string>)
    requires forall i :: 0 <= i < |argv| ==> !IsOption(argv[i])
    ensures Pairs(argv) == map[] && Flags(argv) == {}
  {
    if argv != [] {
      NoOptionsNoPairs(argv[..|argv| - 1]);
    }
  }

  /**
   * The last option carrying the key `timeout` sets the global timeout: with
   * OptionPairRoundTrip, `--timeout=<n>` written last gives n.
   */
  lemma SettingsTimeoutOption(argv: seq<string>, i: nat, n: int, d: Defaults)
    requires i < |argv| && OptionPair(argv[i]) == Some(("timeout", IntString(n)))
    requires forall j :: i < j < |argv| && OptionPair(argv[j]).Some? ==> OptionPair(argv[j]).value.0 != "timeout"
    ensures SettingsOf(Args(Flags(argv), Pairs(argv), Positionals(argv)), d).timeout == n
  {
    PairsLastWins(argv, i, "timeout", IntString(n));
    TimeoutFromPair(Args(Flags(argv), Pairs(argv), Positionals(argv)), d, n);
  }

  lemma TimeoutFromPair(a: Args, d: Defaults, n: int)
    requires "timeout" in a.kv && a.kv["timeout"] == IntString(n)
    ensures SettingsOf(a, d).timeout == n
  {
    ToIntReadsRenderedInt(n, "", d.timeout);
    assert IntString(n) + "" == IntString(n);
  }
}

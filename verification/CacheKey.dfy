/** The key a stored response is found under. */
module CacheKey {
  import opened Text
  import opened Json
  import opened CanonicalJson

  // ---------------------------------------------------------------- decimals

  function Digits(n: nat): string {
    if n < 10 then [('0' as int + n) as char] else Digits(n / 10) + [('0' as int + n % 10) as char]
  }

  /** How encoding/json writes an int. */
  function Decimal(n: int): string { if n < 0 then "-" + Digits(-n) else Digits(n) }

  lemma {:induction false} NumberRunSnoc(q: NumberState, t: string, c: char)
    ensures NumberRun(q, t + [c]) == NumberStep(NumberRun(q, t), c)
    decreases |t|
  {
    if t == "" {
      assert t + [c] == [c] && [c][1..] == "";
    } else {
      assert (t + [c])[1..] == t[1..] + [c];
      NumberRunSnoc(NumberStep(q, t[0]), t[1..], c);
    }
  }

  lemma {:induction false} DigitsRun(n: nat, q: NumberState)
    requires q in {NStart, NMinus}
    ensures NumberRun(q, Digits(n)) == if n == 0 then NZero else NInt
  {
    if n < 10 {
      assert Digits(n)[1..] == "";
    } else {
      DigitsRun(n / 10, q);
      NumberRunSnoc(q, Digits(n / 10), ('0' as int + n % 10) as char);
    }
  }

  lemma DecimalIsNumber(n: int)
    ensures ValidNumber(Decimal(n))
  {
    if n < 0 {
      DigitsRun(-n, NMinus);
      assert ("-" + Digits(-n))[1..] == Digits(-n);
    } else {
      DigitsRun(n, NStart);
    }
  }

  lemma {:induction false} DigitsShape(n: nat)
    ensures Digits(n) != "" && IsDigit(Digits(n)[0]) && IsDigit(Digits(n)[|Digits(n)| - 1])
    ensures |Digits(n)| == 1 <==> n < 10
  {
    if n >= 10 { DigitsShape(n / 10); }
  }

  lemma {:induction false} DigitsInjective(a: nat, b: nat)
    requires Digits(a) == Digits(b)
    ensures a == b
  {
    DigitsShape(a);
    DigitsShape(b);
    if a >= 10 {
      var s, t := Digits(a / 10), Digits(b / 10);
      assert Digits(a)[..|Digits(a)| - 1] == s && Digits(b)[..|Digits(b)| - 1] == t;
      DigitsInjective(a / 10, b / 10);
      assert Digits(a)[|Digits(a)| - 1] == Digits(b)[|Digits(b)| - 1];
    }
  }

  lemma DecimalInjective(a: int, b: int)
    requires Decimal(a) == Decimal(b)
    ensures a == b
  {
    if a >= 0 { DigitsShape(a); }
    if b >= 0 { DigitsShape(b); }
    if a < 0 && b < 0 {
      assert Decimal(a)[1..] == Digits(-a) && Decimal(b)[1..] == Digits(-b);
      DigitsInjective(-a, -b);
    } else if a >= 0 && b >= 0 {
      DigitsInjective(a, b);
    }
  }

  // --------------------------------------------------------------------- keys

  /** What a response is generated from; everything but the repetition. */
  datatype Prefix = Prefix(
    seat: string, configHash: string, promptPackHash: string, inputHash: string, bundleHash: Option<string>)

  function BundleText(bundleHash: Option<string>): string { if bundleHash.Some? then bundleHash.value else "" }

  function KeyTree(p: Prefix, repetition: int): Json {
    Object(map[
      "seat" := Str(p.seat), "config_hash" := Str(p.configHash), "prompt_pack_hash" := Str(p.promptPackHash),
      "input_hash" := Str(p.inputHash), "bundle_hash" := Str(BundleText(p.bundleHash)),
      "repetition" := Number(Decimal(repetition))])
  }

  ghost function KeyText(p: Prefix, repetition: int): string { Canonical(KeyTree(p, repetition)) }

  /** sha stands for the lowercase hex SHA-256. */
  ghost function ResponseCacheKey(sha: string -> string, p: Prefix, repetition: int): string {
    sha(KeyText(p, repetition))
  }

  /** The key text decodes to an object that names every input. */
  lemma KeyTextNamesInputs(p: Prefix, repetition: int)
    ensures var v := Unmarshal(KeyText(p, repetition));
      v.Some? && v.value.Object?
      && v.value.fields.Keys
         == {"seat", "config_hash", "prompt_pack_hash", "input_hash", "bundle_hash", "repetition"}
      && v.value.fields["seat"] == Str(p.seat) && v.value.fields["config_hash"] == Str(p.configHash)
      && v.value.fields["prompt_pack_hash"] == Str(p.promptPackHash)
      && v.value.fields["input_hash"] == Str(p.inputHash)
      && v.value.fields["bundle_hash"] == Str(if p.bundleHash == None then "" else p.bundleHash.value)
      && v.value.fields["repetition"] == Number(Decimal(repetition))
  {
    KeyTextDecodes(p, repetition);
  }

  lemma KeyTextDecodes(p: Prefix, repetition: int)
    ensures Unmarshal(KeyText(p, repetition)) == Some(KeyTree(p, repetition))
  {
    KeyTreeIsWellFormed(p, repetition);
    CanonicalDecodes(KeyTree(p, repetition));
  }

  lemma KeyTreeIsWellFormed(p: Prefix, repetition: int)
    ensures WellFormed(KeyTree(p, repetition))
  {
    DecimalIsNumber(repetition);
  }

  /** The two inputs differ at most in how an absent bundle is spelled. */
  predicate SameInputs(p: Prefix, q: Prefix) {
    q.(bundleHash := None) == p.(bundleHash := None) && BundleText(p.bundleHash) == BundleText(q.bundleHash)
  }

  ghost predicate NoCollision(sha: string -> string, a: string, b: string) { sha(a) == sha(b) ==> a == b }

  lemma TreesAgree(p: Prefix, m: int, q: Prefix, n: int)
    ensures KeyTree(p, m) == KeyTree(q, n) <==> SameInputs(p, q) && m == n
  {
    var a, b := KeyTree(p, m).fields, KeyTree(q, n).fields;
    if a == b {
      assert a["seat"] == b["seat"] && a["config_hash"] == b["config_hash"];
      assert a["prompt_pack_hash"] == b["prompt_pack_hash"] && a["input_hash"] == b["input_hash"];
      assert a["bundle_hash"] == b["bundle_hash"] && a["repetition"] == b["repetition"];
      DecimalInjective(m, n);
    }
  }

  lemma TreeIsWellFormed(p: Prefix, n: int)
    ensures WellFormed(KeyTree(p, n))
  {
    DecimalIsNumber(n);
    var fields := KeyTree(p, n).fields;
    forall k | k in fields ensures WellFormed(fields[k]) {
      if k == "repetition" { assert fields[k] == Number(Decimal(n)); } else { assert fields[k].Str?; }
    }
  }

  /** Two keys are the same exactly if all six inputs agree, a missing bundle
      hash counting as an empty one. */
  lemma KeysAgree(sha: string -> string, p: Prefix, m: int, q: Prefix, n: int)
    requires NoCollision(sha, KeyText(p, m), KeyText(q, n))
    ensures ResponseCacheKey(sha, p, m) == ResponseCacheKey(sha, q, n) <==> SameInputs(p, q) && m == n
  {
    TreeIsWellFormed(p, m);
    TreeIsWellFormed(q, n);
    CanonicalInjective(KeyTree(p, m), KeyTree(q, n));
    TreesAgree(p, m, q, n);
  }
}

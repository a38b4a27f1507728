/** The grammar of layer version ARNs, and the cache directory each one has to itself. */
module LayerArn {
  import opened Options

  // ---------------------------------------------------------------------------------------------
  // Fields
  // ---------------------------------------------------------------------------------------------

  /** A string cut at its colons. */
  function Fields(s: string): (f: seq<string>)
    ensures f != [] && forall i :: 0 <= i < |f| ==> ':' !in f[i]
  {
    if s == "" then [""] else
      var rest := Fields(s[1..]);
      if s[0] == ':' then [""] + rest else [[s[0]] + rest[0]] + rest[1..]
  }

  function Join(f: seq<string>, sep: char): string {
    if f == [] then "" else if |f| == 1 then f[0] else f[0] + ([sep] + Join(f[1..], sep))
  }

  lemma {:induction false} JoinFields(s: string)
    ensures Join(Fields(s), ':') == s
  {
    if s != "" {
      JoinFields(s[1..]);
      var rest := Fields(s[1..]);
      if s[0] == ':' {
        assert ([""] + rest)[1..] == rest;
        assert s == [':'] + s[1..];
        assert "" + ([':'] + s[1..]) == [':'] + s[1..];
      } else {
        HeadOfJoin(s[0], rest);
        assert s == [s[0]] + s[1..];
      }
    }
  }

  lemma HeadOfJoin(c: char, f: seq<string>)
    requires f != []
    ensures Join([[c] + f[0]] + f[1..], ':') == [c] + Join(f, ':')
  {
    var g := [[c] + f[0]] + f[1..];
    assert g[1..] == f[1..];
    if |f| > 1 { assert ([c] + f[0]) + ([':'] + Join(f[1..], ':')) == [c] + (f[0] + ([':'] + Join(f[1..], ':'))); }
  }

  // ---------------------------------------------------------------------------------------------
  // layerARNPattern
  // ---------------------------------------------------------------------------------------------

  predicate Small(c: char) { 'a' <= c <= 'z' }
  predicate Digit(c: char) { '0' <= c <= '9' }
  predicate RegionChar(c: char) { Small(c) || Digit(c) || c == '-' }
  predicate NameChar(c: char) { Small(c) || Digit(c) || 'A' <= c <= 'Z' || c == '_' || c == '-' }

  predicate All(s: string, p: char -> bool) { forall i :: 0 <= i < |s| ==> p(s[i]) }

  /** (?:-[a-z]+)*: small letters and dashes, a dash first and a letter after every dash. */
  predicate Alternates(s: string) { s == "" || (s[0] == '-' && forall i :: 0 <= i < |s| ==> AlternateAt(s, i)) }

  predicate AlternateAt(s: string, i: nat)
    requires i < |s|
  {
    Small(s[i]) || (s[i] == '-' && i + 1 < |s| && Small(s[i + 1]))
  }

  predicate Partition(s: string) { "aws" <= s && Alternates(s[3..]) }

  /** What the pattern asks of the fields between the colons. */
  predicate ArnFields(f: seq<string>) {
    && |f| == 8 && f[0] == "arn" && Partition(f[1]) && f[2] == "lambda"
    && f[3] != "" && All(f[3], RegionChar)
    && |f[4]| == 12 && All(f[4], Digit)
    && f[5] == "layer"
    && f[6] != "" && All(f[6], NameChar)
    && f[7] != "" && All(f[7], Digit)
  }

  /** layerARNPattern. */
  predicate IsLayerArn(s: string) { ArnFields(Fields(s)) }

  datatype LayerRef = Arn(raw: string, region: string) | Path(raw: string)

  /** ParseLayerRef; None is its error. */
  function ParseLayerRef(s: string): Option<LayerRef> {
    if s == "" then None
    else if !("arn:" <= s) then Some(Path(s))
    else if IsLayerArn(s) then Some(Arn(s, Fields(s)[3]))
    else None
  }

  lemma {:induction false} FieldsAppend(a: string, s: string)
    requires ':' !in a
    ensures Fields(a + ([':'] + s)) == [a] + Fields(s)
  {
    if a == "" {
      assert "" + ([':'] + s) == [':'] + s;
      assert ([':'] + s)[1..] == s;
    } else {
      FieldsAppend(a[1..], s);
      assert (a + ([':'] + s))[1..] == a[1..] + ([':'] + s);
      assert a == [a[0]] + a[1..];
    }
  }

  lemma {:induction false} FieldsAlone(a: string)
    requires ':' !in a
    ensures Fields(a) == [a]
  {
    if a != "" {
      FieldsAlone(a[1..]);
      assert a == [a[0]] + a[1..];
    }
  }

  lemma {:induction false} FieldsOfJoin(f: seq<string>)
    requires f != [] && forall i :: 0 <= i < |f| ==> ':' !in f[i]
    ensures Fields(Join(f, ':')) == f
  {
    if |f| == 1 {
      FieldsAlone(f[0]);
    } else {
      FieldsOfJoin(f[1..]);
      FieldsAppend(f[0], Join(f[1..], ':'));
      assert f == [f[0]] + f[1..];
    }
  }

  lemma PartitionIsPlain(s: string)
    requires Partition(s)
    ensures '_' !in s && '/' !in s && ':' !in s
  {
    forall c | c in s ensures c != '_' && c != '/' && c != ':' {
      var i :| 0 <= i < |s| && s[i] == c;
      if i < 3 {
        assert s[..3] == "aws" && s[i] == s[..3][i] && "aws"[0] == 'a' && "aws"[1] == 'w' && "aws"[2] == 's';
      } else {
        var t := s[3..];
        assert s[i] == t[i - 3] && AlternateAt(t, i - 3);
      }
    }
  }

  lemma NoColons(f: seq<string>)
    requires ArnFields(f)
    ensures forall i :: 0 <= i < |f| ==> ':' !in f[i] && '/' !in f[i]
    ensures forall i :: 0 <= i < |f| && i != 6 ==> '_' !in f[i]
  {
    PartitionIsPlain(f[1]);
  }

  /** The strings written as the pattern's fields with colons between them are the ones that are parsed as ARNs, and the
      region is the fourth field. */
  lemma ParsesWhatIsWritten(f: seq<string>)
    requires ArnFields(f)
    ensures ParseLayerRef(Join(f, ':')) == Some(Arn(Join(f, ':'), f[3]))
  {
    NoColons(f);
    FieldsOfJoin(f);
    assert Join(f, ':') == "arn" + ([':'] + Join(f[1..], ':'));
  }

  lemma OnlyWrittenIsParsed(s: string)
    requires ParseLayerRef(s).Some? && ParseLayerRef(s).value.Arn?
    ensures ArnFields(Fields(s)) && s == Join(Fields(s), ':')
  {
    JoinFields(s);
  }

  /** Every entry is an ARN, a path or an error, and each of them is what its beginning and the pattern say. */
  lemma WhatIsParsed(s: string)
    ensures (exists f :: ArnFields(f) && s == Join(f, ':')) <==> ParseLayerRef(s).Some? && ParseLayerRef(s).value.Arn?
    ensures s != "" && !("arn:" <= s) <==> ParseLayerRef(s) == Some(Path(s))
    ensures s == "" || ("arn:" <= s && !exists f :: ArnFields(f) && s == Join(f, ':')) <==> ParseLayerRef(s) == None
  {
    if f :| ArnFields(f) && s == Join(f, ':') { ParsesWhatIsWritten(f); }
    if ParseLayerRef(s).Some? && ParseLayerRef(s).value.Arn? { OnlyWrittenIsParsed(s); }
  }

  /** The pattern's repeated group: any number of words of small letters, each after a dash. */
  lemma {:induction false} AlternatesAreWords(s: string)
    ensures Alternates(s) <==> exists words :: AllWords(words) && s == Dashed(words)
  {
    if Alternates(s) {
      var words := WordsOf(s);
    }
    if words :| AllWords(words) && s == Dashed(words) { DashedAlternates(words); }
  }

  predicate AllWords(words: seq<string>) {
    forall k :: 0 <= k < |words| ==> words[k] != "" && forall i :: 0 <= i < |words[k]| ==> 'a' <= words[k][i] <= 'z'
  }

  function Dashed(words: seq<string>): string { if words == [] then "" else ['-'] + words[0] + Dashed(words[1..]) }

  lemma {:induction false} WordsOf(s: string) returns (words: seq<string>)
    requires Alternates(s)
    ensures AllWords(words) && s == Dashed(words)
    decreases |s|
  {
    words := [];
    if s != "" {
      var n := FirstWord(s, 1);
      assert AlternateAt(s, 0);
      var t := s[n..];
      forall i | 0 <= i < |t| ensures AlternateAt(t, i) { assert AlternateAt(s, n + i); }
      assert t != "" ==> AlternateAt(s, n);
      var rest := WordsOf(s[n..]);
      words := [s[1..n]] + rest;
      assert words[1..] == rest;
      assert s == ['-'] + s[1..n] + s[n..];
    }
  }

  /** Where the small letters from here on end. */
  function FirstWord(s: string, from: nat): (n: nat)
    requires from <= |s|
    ensures from <= n <= |s| && (n < |s| ==> !('a' <= s[n] <= 'z'))
    ensures forall i :: from <= i < n ==> 'a' <= s[i] <= 'z'
    decreases |s| - from
  {
    if from == |s| || !('a' <= s[from] <= 'z') then from else FirstWord(s, from + 1)
  }

  lemma {:induction false} DashedAlternates(words: seq<string>)
    requires AllWords(words)
    ensures Alternates(Dashed(words))
  {
    if words != [] {
      var w, rest := words[0], Dashed(words[1..]);
      var s := ['-'] + w + rest;
      DashedAlternates(words[1..]);
      forall i | 0 <= i < |s| ensures AlternateAt(s, i) {
        if i > |w| { assert AlternateAt(rest, i - 1 - |w|); }
      }
    }
  }

  /** \d, [a-z0-9-] and [A-Za-z0-9_-], letter by letter. */
  lemma CharClasses(c: char)
    ensures Digit(c) <==> c in "0123456789"
    ensures RegionChar(c) <==> c in "abcdefghijklmnopqrstuvwxyz0123456789-"
    ensures NameChar(c) <==> RegionChar(c) || c == '_' || c in "ABCDEFGHIJKLMNOPQRSTUVWXYZ"
  {
  }

  /** A layer of the standard partition, one of GovCloud and one of China. */
  lemma Examples()
    ensures ArnFields(["arn", "aws", "lambda", "eu-west-1", "534081306603", "layer", "php-83", "1"])
    ensures ArnFields(["arn", "aws-us-gov", "lambda", "us-gov-west-1", "534081306603", "layer", "php-83", "1"])
    ensures ArnFields(["arn", "aws-cn", "lambda", "cn-north-1", "534081306603", "layer", "PHP_83", "12"])
  {
  }

  /** No version, one that is no number, and an account that is too short. */
  lemma NonExamples()
    ensures !ArnFields(["arn", "aws", "lambda", "eu-west-1", "534081306603", "layer", "php-83"])
    ensures !ArnFields(["arn", "aws", "lambda", "eu-west-1", "534081306603", "layer", "php-83", "latest"])
    ensures !ArnFields(["arn", "aws", "lambda", "eu-west-1", "53408130660", "layer", "php-83", "1"])
  {
    assert "latest"[0] == 'l';
  }

  lemma NoneMayBeEmpty(f: seq<string>)
    requires ArnFields(f)
    ensures forall i :: 0 <= i < 8 ==> f[i] != ""
  {
  }

  // ---------------------------------------------------------------------------------------------
  // Cache directories
  // ---------------------------------------------------------------------------------------------

  /** sanitizeARN. */
  function Sanitize(arn: string): (r: string)
    ensures |r| == |arn|
    ensures forall i :: 0 <= i < |arn| ==> r[i] == if arn[i] == ':' || arn[i] == '/' then '_' else arn[i]
  {
    if arn == "" then "" else [if arn[0] == ':' || arn[0] == '/' then '_' else arn[0]] + Sanitize(arn[1..])
  }

  /** CachePath, as the segments of a path. */
  function CachePath(cacheDir: seq<string>, ref: LayerRef): seq<string> { cacheDir + ["layers", Sanitize(ref.raw)] }

  lemma SanitizeAppend(a: string, b: string)
    ensures Sanitize(a + b) == Sanitize(a) + Sanitize(b)
  {
  }

  /** Fields without slashes stay as they are, and the colons between them become underscores. */
  lemma {:induction false} SanitizeJoin(f: seq<string>)
    requires forall i :: 0 <= i < |f| ==> ':' !in f[i] && '/' !in f[i]
    ensures Sanitize(Join(f, ':')) == Join(f, '_')
  {
    if |f| == 1 {
      assert Sanitize(f[0]) == f[0];
    } else if f != [] {
      SanitizeJoin(f[1..]);
      SanitizeAppend(f[0], [':'] + Join(f[1..], ':'));
      SanitizeAppend([':'], Join(f[1..], ':'));
      assert Sanitize(f[0]) == f[0] && Sanitize([':']) == ['_'];
    }
  }

  /** The first underscore ends a field that has none. */
  lemma CutFirst(a: string, x: string, b: string, y: string)
    requires '_' !in a && '_' !in b && a + (['_'] + x) == b + (['_'] + y)
    ensures a == b && x == y
  {
    var s := a + (['_'] + x);
    assert s[|a|] == '_' && s[|b|] == '_';
    assert forall i :: 0 <= i < |a| ==> s[i] == a[i] && a[i] in a;
    assert forall i :: 0 <= i < |b| ==> s[i] == b[i] && b[i] in b;
    assert a == s[..|a|] && b == s[..|b|] && x == s[|a| + 1..] && y == s[|b| + 1..];
  }

  /** The last one begins one. */
  lemma CutLast(a: string, x: string, b: string, y: string)
    requires '_' !in x && '_' !in y && a + (['_'] + x) == b + (['_'] + y)
    ensures a == b && x == y
  {
    var s := a + (['_'] + x);
    assert s[|a|] == '_' && s[|b|] == '_';
    assert forall i :: |a| < i < |s| ==> s[i] == x[i - |a| - 1] && x[i - |a| - 1] in x;
    assert forall i :: |b| < i < |s| ==> s[i] == y[i - |b| - 1] && y[i - |b| - 1] in y;
    assert a == s[..|a|] && b == s[..|b|] && x == s[|a| + 1..] && y == s[|b| + 1..];
  }

  /** Of the fields of an ARN only the name, the last but one, may have an underscore. */
  predicate OnlyNameHasUnderscores(f: seq<string>) {
    |f| >= 2 && forall i :: 0 <= i < |f| && i != |f| - 2 ==> '_' !in f[i]
  }

  lemma {:induction false} JoinIsInjective(f: seq<string>, g: seq<string>)
    requires |f| == |g| && OnlyNameHasUnderscores(f) && OnlyNameHasUnderscores(g) && Join(f, '_') == Join(g, '_')
    ensures f == g
  {
    if |f| == 2 {
      CutLast(f[0], f[1], g[0], g[1]);
    } else {
      CutFirst(f[0], Join(f[1..], '_'), g[0], Join(g[1..], '_'));
      JoinIsInjective(f[1..], g[1..]);
      assert f == [f[0]] + f[1..] && g == [g[0]] + g[1..];
    }
  }

  /** Two layer version ARNs whose cache directories are one are one ARN, though a layer's name may have underscores. */
  lemma SanitizeIsInjective(a: string, b: string)
    requires IsLayerArn(a) && IsLayerArn(b) && Sanitize(a) == Sanitize(b)
    ensures a == b
  {
    NoColons(Fields(a));
    NoColons(Fields(b));
    JoinFields(a);
    JoinFields(b);
    SanitizeJoin(Fields(a));
    SanitizeJoin(Fields(b));
    JoinIsInjective(Fields(a), Fields(b));
  }

  lemma CachePathsDiffer(cacheDir: seq<string>, a: string, b: string)
    requires ParseLayerRef(a).Some? && ParseLayerRef(a).value.Arn? && ParseLayerRef(b).Some?
             && ParseLayerRef(b).value.Arn?
    ensures CachePath(cacheDir, ParseLayerRef(a).value) == CachePath(cacheDir, ParseLayerRef(b).value) <==> a == b
  {
    var p, q := CachePath(cacheDir, ParseLayerRef(a).value), CachePath(cacheDir, ParseLayerRef(b).value);
    if p == q {
      assert p[|cacheDir| + 1] == Sanitize(a) && q[|cacheDir| + 1] == Sanitize(b);
      SanitizeIsInjective(a, b);
    }
  }

  /** The directory's name is one path segment, and neither "." nor "..". */
  lemma OneSegment(arn: string)
    requires IsLayerArn(arn)
    ensures '/' !in Sanitize(arn) && "arn_" <= Sanitize(arn)
  {
    JoinFields(arn);
    NoColons(Fields(arn));
    SanitizeJoin(Fields(arn));
    assert Join(Fields(arn), '_') == "arn" + (['_'] + Join(Fields(arn)[1..], '_'));
  }

  /** Of strings that are no ARNs two may well share a directory. */
  lemma NotInjectiveInGeneral()
    ensures Sanitize("a:b") == Sanitize("a_b")
  {
  }

  // ---------------------------------------------------------------------------------------------
  // collectLayerARNRefs
  // ---------------------------------------------------------------------------------------------

  /** The ARNs among the entries, each where it is first seen. */
  function FirstSeen(entries: seq<string>): (refs: seq<LayerRef>)
    ensures forall r :: r in refs ==> r.Arn? && r.raw in entries && ParseLayerRef(r.raw) == Some(r)
    ensures forall e :: e in entries && ParseLayerRef(e).Some? && ParseLayerRef(e).value.Arn? ==>
              ParseLayerRef(e).value in refs
    ensures forall i, j :: 0 <= i < j < |refs| ==> refs[i].raw != refs[j].raw
  {
    if entries == [] then [] else
      var n := |entries| - 1;
      var front, last := FirstSeen(entries[..n]), entries[n];
      assert entries == entries[..n] + [last];
      var ref := ParseLayerRef(last);
      if ref.Some? && ref.value.Arn? && last !in entries[..n] then front + [ref.value] else front
  }

  function Flat(layers: seq<seq<string>>): seq<string> {
    if layers == [] then [] else Flat(layers[..|layers| - 1]) + layers[|layers| - 1]
  }

  lemma FirstSeenOneMore(entries: seq<string>, e: string)
    ensures var refs := FirstSeen(entries);
            FirstSeen(entries + [e])
            == if ParseLayerRef(e).Some? && ParseLayerRef(e).value.Arn? && (forall r :: r in refs ==> r.raw != e)
               then refs + [ParseLayerRef(e).value] else refs
  {
    assert (entries + [e])[..|entries|] == entries;
  }

  ghost predicate Raws(refs: seq<LayerRef>, seen: set<string>) {
    forall e :: e in seen <==> exists r :: r in refs && r.raw == e
  }

  /** `layers` are the functions' layer lists, empty for one without a manifest. */
  method CollectLayerArnRefs(layers: seq<seq<string>>) returns (refs: seq<LayerRef>)
    ensures refs == FirstSeen(Flat(layers))
  {
    refs := [];
    var seen: set<string> := {};
    for i := 0 to |layers|
      invariant refs == FirstSeen(Flat(layers[..i])) && Raws(refs, seen)
    {
      refs, seen := CollectFrom(layers[i], refs, seen, Flat(layers[..i]));
      assert layers[..i + 1][..i] == layers[..i];
    }
    assert layers[..|layers|] == layers;
  }

  /** The inner loop. */
  method CollectFrom(entries: seq<string>, refs: seq<LayerRef>, seen: set<string>, ghost before: seq<string>)
    returns (refs': seq<LayerRef>, seen': set<string>)
    requires refs == FirstSeen(before) && Raws(refs, seen)
    ensures refs' == FirstSeen(before + entries) && Raws(refs', seen')
  {
    refs', seen' := refs, seen;
    assert before + entries[..0] == before;
    for j := 0 to |entries|
      invariant refs' == FirstSeen(before + entries[..j]) && Raws(refs', seen')
    {
      refs', seen' := CollectOne(entries[j], refs', seen', before + entries[..j]);
      OneMore(before, entries, j);
    }
    assert entries[..|entries|] == entries;
  }

  lemma OneMore<T>(before: seq<T>, entries: seq<T>, j: nat)
    requires j < |entries|
    ensures before + entries[..j + 1] == before + entries[..j] + [entries[j]]
  {
  }

  method CollectOne(entry: string, refs: seq<LayerRef>, seen: set<string>, ghost before: seq<string>)
    returns (refs': seq<LayerRef>, seen': set<string>)
    requires refs == FirstSeen(before) && Raws(refs, seen)
    ensures refs' == FirstSeen(before + [entry]) && Raws(refs', seen')
  {
    refs', seen' := refs, seen;
    FirstSeenOneMore(before, entry);
    var ref := ParseLayerRef(entry);
    if ref == None || !ref.value.Arn? { return; }
    if ref.value.raw in seen { return; }
    seen' := seen + {ref.value.raw};
    refs' := refs + [ref.value];
  }
}

/** Resource names: makeResourceName and what a name still tells about its parts. */
module Names {
  import opened Text

  /** The parts that are not the empty string, in order. */
  function NonEmpty(parts: seq<string>): (kept: seq<string>) {
    if parts == [] then []
    else (if parts[0] == "" then [] else [parts[0]]) + NonEmpty(parts[1..])
  }

  function ResourceName(parts: seq<string>, suffix: string): (name: string) {
    Join(NonEmpty(parts + [suffix]), ".")
  }

  lemma {:induction false} NonEmptyAppend(parts: seq<string>, part: string)
    ensures NonEmpty(parts + [part]) == NonEmpty(parts) + (if part == "" then [] else [part])
  {
    if parts == [] {
      assert [part][1..] == [];
    } else {
      assert (parts + [part])[1..] == parts[1..] + [part];
      NonEmptyAppend(parts[1..], part);
    }
  }

  /** The loop of makeResourceName: keep the parts that say something, join what is left. */
  method MakeResourceName(parts: seq<string>, suffix: string) returns (name: string)
    ensures name == ResourceName(parts, suffix)
  {
    var validParts: seq<string> := [];
    var all := parts + [suffix];
    for i := 0 to |all|
      invariant validParts == NonEmpty(all[..i])
    {
      NonEmptyAppend(all[..i], all[i]);
      assert all[..i + 1] == all[..i] + [all[i]];
      if all[i] != "" {
        validParts := validParts + [all[i]];
      }
    }
    assert all[..|all|] == all;
    name := Join(validParts, ".");
  }

  /** One part put in front of a name that is already joined. */
  function Glue(part: string, rest: string): (name: string) {
    if part == "" then rest else if rest == "" then part else part + "." + rest
  }

  lemma {:induction false} JoinEmpty(parts: seq<string>)
    ensures Join(NonEmpty(parts), ".") == "" <==> NonEmpty(parts) == []
    ensures "" !in NonEmpty(parts)
  {
    if parts != [] {
      JoinEmpty(parts[1..]);
    }
  }

  lemma HeadGlued(part: string, parts: seq<string>, suffix: string)
    ensures ResourceName([part] + parts, suffix) == Glue(part, ResourceName(parts, suffix))
  {
    var tail := parts + [suffix];
    assert ([part] + parts) + [suffix] == [part] + tail;
    assert ([part] + tail)[1..] == tail;
    JoinEmpty(tail);
    var kept := NonEmpty(tail);
    if part == "" {
      assert NonEmpty([part] + tail) == [] + kept == kept;
    } else {
      assert NonEmpty([part] + tail) == [part] + kept;
      assert ([part] + kept)[1..] == kept;
    }
  }

  lemma GlueInjective(a: string, b: string, rest: string)
    requires Glue(a, rest) == Glue(b, rest)
    ensures a == b
  {
    if a != "" && b != "" && rest != "" {
      var name := a + "." + rest;
      assert |a| == |b|;
      assert a == name[..|a|];
      assert b == (b + "." + rest)[..|a|];
    }
  }

  /**
    * Whatever follows it, the first part of a name can be read back from the
    * name: also when it, the other parts or the suffix are empty.
    */
  lemma FirstPartInjective(a: string, b: string, parts: seq<string>, suffix: string)
    requires ResourceName([a] + parts, suffix) == ResourceName([b] + parts, suffix)
    ensures a == b
  {
    HeadGlued(a, parts, suffix);
    HeadGlued(b, parts, suffix);
    GlueInjective(a, b, ResourceName(parts, suffix));
  }

  // ---- Names of two parts ----

  lemma SuffixAlone(suffix: string)
    ensures ResourceName([], suffix) == suffix
  {
    assert [] + [suffix] == [suffix] && [suffix][1..] == [];
    assert NonEmpty([suffix]) == (if suffix == "" then [] else [suffix]) + NonEmpty([]);
    assert NonEmpty([]) == [];
    assert [suffix] + [] == [suffix];
  }

  lemma TwoParts(n: string, p: string, suffix: string)
    ensures ResourceName([n, p], suffix) == Glue(n, Glue(p, suffix))
  {
    HeadGlued(n, [p], suffix);
    HeadGlued(p, [], suffix);
    assert [n] + [p] == [n, p] && [p] + [] == [p];
    SuffixAlone(suffix);
  }

  /** Two parts joined to one leave the name as it is. */
  lemma GlueAssociative(n: string, p: string, suffix: string)
    ensures Glue(n, Glue(p, suffix)) == Glue(Glue(n, p), suffix)
  {
    if n != "" && p != "" && suffix != "" {
      assert n + "." + (p + "." + suffix) == (n + "." + p) + "." + suffix;
    }
  }

  predicate EndsWith(s: string, end: string) {
    |end| <= |s| && s[|s| - |end|..] == end
  }

  lemma EndOfSum(s: string, end: string)
    ensures EndsWith(s + end, end)
  {
  }

  /** The longer of two ends of the same string ends with the shorter. */
  lemma LongerEnd(s: string, long: string, short: string)
    requires EndsWith(s, long) && EndsWith(s, short) && |short| <= |long|
    ensures EndsWith(long, short)
  {
    assert s[|s| - |long|..][|long| - |short|..] == s[|s| - |short|..];
  }

  /** Neither of the two says more about what comes before it than the other. */
  predicate Apart(p: string, q: string) {
    p == q || (p != "" && q != "" && !EndsWith(p, "." + q) && !EndsWith(q, "." + p))
  }

  /** The second part, not empty, is what a name that has it ends with. */
  lemma EndsWithPart(n: string, p: string)
    ensures EndsWith(Glue(n, p), p) && |Glue(n, p)| >= |p|
    ensures n != "" && p != "" ==> EndsWith(Glue(n, p), "." + p)
    ensures n == "" ==> Glue(n, p) == p
  {
    if n != "" && p != "" {
      EndOfSum(n + ".", p);
      assert n + "." + p == n + ("." + p);
      EndOfSum(n, "." + p);
    }
  }

  lemma ShorterCannotEnd(n: string, p: string, m: string, q: string)
    requires Glue(n, p) == Glue(m, q) && p != "" && q != "" && |p| > |q|
    ensures EndsWith(p, "." + q)
  {
    EndsWithPart(n, p);
    EndsWithPart(m, q);
    LongerEnd(Glue(n, p), p, "." + q);
  }

  lemma GluedApart(n: string, p: string, m: string, q: string)
    requires Apart(p, q) && Glue(n, p) == Glue(m, q)
    ensures n == m && p == q
  {
    if p == q {
      GlueInjective(n, m, p);
    } else if |p| > |q| {
      ShorterCannotEnd(n, p, m, q);
    } else if |q| > |p| {
      ShorterCannotEnd(m, q, n, p);
    } else {
      EndsWithPart(n, p);
      EndsWithPart(m, q);
    }
  }

  lemma SameBeforeSuffix(n: string, p: string, m: string, q: string, suffix: string)
    ensures ResourceName([n, p], suffix) == ResourceName([m, q], suffix) <==> Glue(n, p) == Glue(m, q)
  {
    TwoParts(n, p, suffix);
    TwoParts(m, q, suffix);
    GlueAssociative(n, p, suffix);
    GlueAssociative(m, q, suffix);
    if Glue(Glue(n, p), suffix) == Glue(Glue(m, q), suffix) {
      GlueInjective(Glue(n, p), Glue(m, q), suffix);
    }
  }

  /** What makes two names the same, when the second part is more than an end of the other. */
  lemma EndClashes(p: string, q: string)
    requires q != "" && EndsWith(p, "." + q)
    ensures exists m :: Glue("x", p) == Glue(m, q)
  {
    var u := p[..|p| - |q| - 1];
    assert p == u + ("." + q);
    assert "x" + "." + p == ("x" + "." + u) + "." + q;
    assert Glue("x", p) == Glue("x" + "." + u, q);
  }

  lemma NotApartClashes(p: string, q: string) returns (n: string, m: string)
    requires !Apart(p, q)
    ensures Glue(n, p) == Glue(m, q)
  {
    if p == "" {
      n, m := q, "";
    } else if q == "" {
      n, m := "", p;
    } else if EndsWith(p, "." + q) {
      EndClashes(p, q);
      n := "x";
      m :| Glue("x", p) == Glue(m, q);
    } else {
      EndClashes(q, p);
      m := "x";
      n :| Glue("x", q) == Glue(n, p);
    }
  }

  /**
    * Two parts can be read back from a name, whatever the first parts are, if and only
    * if the second parts are equal, or neither is empty or ends with a dot and the other.
    */
  lemma TwoPartsInjectiveIff(p: string, q: string, suffix: string)
    ensures Apart(p, q) <==>
              forall n, m :: ResourceName([n, p], suffix) == ResourceName([m, q], suffix) ==> n == m && p == q
  {
    forall n, m
      ensures ResourceName([n, p], suffix) == ResourceName([m, q], suffix) <==> Glue(n, p) == Glue(m, q)
      ensures Apart(p, q) && Glue(n, p) == Glue(m, q) ==> n == m && p == q
    {
      SameBeforeSuffix(n, p, m, q, suffix);
      if Apart(p, q) && Glue(n, p) == Glue(m, q) {
        GluedApart(n, p, m, q);
      }
    }
    if !Apart(p, q) {
      var n, m := NotApartClashes(p, q);
      assert ResourceName([n, p], suffix) == ResourceName([m, q], suffix);
    }
  }

  /** So port names that are not empty and have no dot, as Kubernetes demands of several ports, keep names apart. */
  lemma DotlessApart(p: string, q: string)
    requires p != "" && q != "" && '.' !in p && '.' !in q
    ensures Apart(p, q)
  {
    DotInEnd(p, q);
    DotInEnd(q, p);
  }

  lemma DotInEnd(p: string, q: string)
    ensures EndsWith(p, "." + q) ==> '.' in p
  {
    if EndsWith(p, "." + q) {
      assert p[|p| - |q| - 1] == ("." + q)[0];
    }
  }

  lemma DotlessTwoPartsInjective(n: string, p: string, m: string, q: string, suffix: string)
    requires p != "" && q != "" && '.' !in p && '.' !in q
    requires ResourceName([n, p], suffix) == ResourceName([m, q], suffix)
    ensures n == m && p == q
  {
    DotlessApart(p, q);
    TwoPartsInjectiveIff(p, q, suffix);
  }

  // ---- Names of any number of parts ----

  ghost predicate Plain(parts: seq<string>) {
    Without(parts, '.') && forall part | part in parts :: part != ""
  }

  /** What the suffix adds to the parts a name splits into. */
  ghost function Tail(suffix: string): (parts: seq<string>) {
    if suffix == "" then [] else Split(suffix, '.')
  }

  lemma GlueSplits(part: string, rest: string)
    requires part != "" && '.' !in part
    ensures Split(Glue(part, rest), '.') == [part] + Tail(rest)
  {
    if rest == "" {
      SplitPlain(part, '.');
    } else {
      SplitFirst(part, rest, '.');
    }
  }

  /** What a name of plain parts splits into. */
  lemma {:induction false} NameSplits(parts: seq<string>, suffix: string)
    requires Plain(parts)
    ensures Tail(ResourceName(parts, suffix)) == parts + Tail(suffix)
  {
    hide ResourceName, Split, Glue;
    if parts == [] {
      SuffixAlone(suffix);
    } else {
      var rest := parts[1..];
      assert parts == [parts[0]] + rest && parts[0] in parts;
      assert forall part | part in rest :: part in parts;
      NameSplits(rest, suffix);
      HeadGlued(parts[0], rest, suffix);
      GlueSplits(parts[0], ResourceName(rest, suffix));
      assert Glue(parts[0], ResourceName(rest, suffix)) != "" by {
        GlueNotEmpty(parts[0], ResourceName(rest, suffix));
      }
    }
  }

  lemma GlueNotEmpty(part: string, rest: string)
    requires part != ""
    ensures Glue(part, rest) != ""
  {
  }

  /** Plain parts can be read back from a name, however many there are, and in their order. */
  lemma PlainPartsInjective(parts: seq<string>, others: seq<string>, suffix: string)
    requires Plain(parts) && Plain(others)
    ensures ResourceName(parts, suffix) == ResourceName(others, suffix) <==> parts == others
  {
    NameSplits(parts, suffix);
    NameSplits(others, suffix);
    if ResourceName(parts, suffix) == ResourceName(others, suffix) {
      assert |parts| == |others|;
      assert (parts + Tail(suffix))[..|parts|] == parts && (others + Tail(suffix))[..|others|] == others;
    }
  }

  /** A witness: with an empty port name, a dotted node name collides with a node and port name. */
  lemma DottedNamesCollide()
    ensures !Apart("", "http") && ResourceName(["n.http", ""], "svc") == ResourceName(["n", "http"], "svc")
  {
    SameBeforeSuffix("n.http", "", "n", "http", "svc");
    assert "n" + "." + "http" == "n.http";
  }
}

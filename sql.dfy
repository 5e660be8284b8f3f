/** Parameterised SQL as the flashcard model hands it to node-postgres: the
    statement text as a sequence of tokens, where a `$k` placeholder is a
    token of its own, and the array of values bound to `$1`, `$2`, ... */
module Sql {

  /** A piece of statement text: literal SQL, or the placeholder `$index`. */
  datatype Token = Lit(text: string) | Placeholder(index: nat)

  /** A bound parameter: a string, a number, or SQL NULL. */
  datatype Value = Text(s: string) | Number(n: int) | Null

  datatype Statement = Statement(query: seq<Token>, params: seq<Value>)

  /** The placeholder number of a single token, if it is one. */
  function PlaceholdersOf(t: Token): seq<nat> {
    if t.Placeholder? then [t.index] else []
  }

  /** The placeholder numbers of `q`, in the order they occur in the text. */
  function Placeholders(q: seq<Token>): (ks: seq<nat>)
    ensures |ks| <= |q|
  {
    if q == [] then [] else PlaceholdersOf(q[0]) + Placeholders(q[1..])
  }

  lemma PlaceholdersCons(t: Token, q: seq<Token>)
    ensures Placeholders([t] + q) == PlaceholdersOf(t) + Placeholders(q)
  {
    assert ([t] + q)[1..] == q;
  }

  lemma {:induction false} PlaceholdersAppend(a: seq<Token>, b: seq<Token>)
    ensures Placeholders(a + b) == Placeholders(a) + Placeholders(b)
  {
    if a == [] {
      assert a + b == b;
    } else {
      var head := PlaceholdersOf(a[0]);
      assert (a + b)[0] == a[0];
      assert (a + b)[1..] == a[1..] + b;
      PlaceholdersAppend(a[1..], b);
      calc {
        Placeholders(a + b);
        head + Placeholders(a[1..] + b);
        head + (Placeholders(a[1..]) + Placeholders(b));
        (head + Placeholders(a[1..])) + Placeholders(b);
      }
    }
  }

  /** `ks` goes on with a numbering whose highest number so far is `last`:
      each number is at least 1 and repeats the previous one or takes the
      next, and the numbering ends at `hi`. */
  predicate Continues(ks: seq<nat>, last: nat, hi: nat) {
    if ks == [] then last == hi
    else 1 <= ks[0] && (ks[0] == last || ks[0] == last + 1) && Continues(ks[1..], ks[0], hi)
  }

  /** The placeholders are numbered in the order the parameters were pushed:
      the first one is `$1`, each later one repeats the previous number or
      takes the next, and the last number is `$|params|`. */
  predicate WellNumbered(s: Statement) {
    Continues(Placeholders(s.query), 0, |s.params|)
  }

  /** `ks` never decreases, all its numbers lie in [lo, hi], and every number
      of [lo, hi] occurs in it. */
  ghost predicate Ramp(ks: seq<nat>, lo: nat, hi: nat) {
    && (forall i :: 0 <= i < |ks| ==> lo <= ks[i] <= hi)
    && (forall i, j :: 0 <= i < j < |ks| ==> ks[i] <= ks[j])
    && (forall k :: lo <= k <= hi ==> k in ks)
  }

  /** What a continued numbering looks like, stated without recursion. */
  lemma {:induction false} ContinuesShape(ks: seq<nat>, last: nat, hi: nat)
    requires Continues(ks, last, hi)
    ensures last <= hi
    ensures forall i :: 0 <= i < |ks| ==> 1 <= ks[i] && last <= ks[i] <= hi
    ensures forall i, j :: 0 <= i < j < |ks| ==> ks[i] <= ks[j]
    ensures forall k :: last < k <= hi ==> k in ks
    ensures ks != [] ==> ks[0] <= last + 1
  {
    if ks != [] {
      var rest := ks[1..];
      ContinuesShape(rest, ks[0], hi);
      forall i | 0 <= i < |ks|
        ensures 1 <= ks[i] && last <= ks[i] <= hi
      {
        if i > 0 {
          assert ks[i] == rest[i - 1];
        }
      }
      forall i, j | 0 <= i < j < |ks|
        ensures ks[i] <= ks[j]
      {
        assert ks[j] == rest[j - 1];
        if i > 0 {
          assert ks[i] == rest[i - 1];
        }
      }
      forall k | last < k <= hi
        ensures k in ks
      {
        if k != ks[0] {
          assert k in rest;
        }
      }
    }
  }

  /** Conversely, a sequence of that shape is a continued numbering. */
  lemma {:induction false} ShapeContinues(ks: seq<nat>, last: nat, hi: nat)
    requires last <= hi
    requires forall i :: 0 <= i < |ks| ==> 1 <= ks[i] && last <= ks[i] <= hi
    requires forall i, j :: 0 <= i < j < |ks| ==> ks[i] <= ks[j]
    requires forall k :: last < k <= hi ==> k in ks
    requires ks != [] ==> ks[0] <= last + 1
    ensures Continues(ks, last, hi)
  {
    if ks == [] {
      assert last + 1 !in ks;
    } else {
      var rest := ks[1..];
      forall i | 0 <= i < |rest|
        ensures 1 <= rest[i] && ks[0] <= rest[i] <= hi
      {
        assert rest[i] == ks[i + 1];
      }
      forall i, j | 0 <= i < j < |rest|
        ensures rest[i] <= rest[j]
      {
        assert rest[i] == ks[i + 1] && rest[j] == ks[j + 1];
      }
      forall k | ks[0] < k <= hi
        ensures k in rest
      {
        assert k in ks;
        var j :| 0 <= j < |ks| && ks[j] == k;
        assert j != 0;
        assert ks[j] == rest[j - 1];
      }
      if rest != [] && ks[0] + 1 <= hi {
        assert ks[0] + 1 in rest;
        var j :| 0 <= j < |rest| && rest[j] == ks[0] + 1;
        assert rest[0] <= rest[j];
      }
      ShapeContinues(rest, ks[0], hi);
    }
  }

  /** A numbering continued from 0 is a ramp over 1..hi. */
  lemma ContinuedIsRamp(ks: seq<nat>, hi: nat)
    requires Continues(ks, 0, hi)
    ensures Ramp(ks, 1, hi)
  {
    ContinuesShape(ks, 0, hi);
  }

  /** A ramp over 1..hi is a numbering continued from 0. */
  lemma RampIsContinued(ks: seq<nat>, hi: nat)
    requires Ramp(ks, 1, hi)
    ensures Continues(ks, 0, hi)
  {
    if ks != [] {
      assert 1 in ks;
      var j :| 0 <= j < |ks| && ks[j] == 1;
      assert ks[0] <= ks[j];
    }
    ShapeContinues(ks, 0, hi);
  }

  /** A statement is well numbered exactly when its placeholder numbers never
      decrease, each refers to an existing parameter, and every parameter is
      referred to. */
  lemma WellNumberedMeaning(s: Statement)
    ensures WellNumbered(s) <==> Ramp(Placeholders(s.query), 1, |s.params|)
  {
    var ks := Placeholders(s.query);
    if WellNumbered(s) {
      ContinuedIsRamp(ks, |s.params|);
    }
    if Ramp(ks, 1, |s.params|) {
      RampIsContinued(ks, |s.params|);
    }
  }

  /** One more number in front of a continued numbering. */
  lemma ContinuesCons(k: nat, ks: seq<nat>, last: nat, hi: nat)
    requires 1 <= k && (k == last || k == last + 1) && Continues(ks, k, hi)
    ensures Continues([k] + ks, last, hi)
  {
    assert ([k] + ks)[1..] == ks;
  }

  /** A numbering continued up to `m` and then on from `m` to `hi` is
      continued up to `hi`. */
  lemma {:induction false} ContinuesConcat(a: seq<nat>, b: seq<nat>, last: nat, m: nat, hi: nat)
    requires Continues(a, last, m) && Continues(b, m, hi)
    ensures Continues(a + b, last, hi)
  {
    if a == [] {
      assert a + b == b;
    } else {
      assert (a + b)[1..] == a[1..] + b;
      ContinuesConcat(a[1..], b, a[0], m, hi);
    }
  }

  /** Literal text before a query adds no placeholder. */
  lemma LiteralFirst(t: Token, q: seq<Token>)
    requires t.Lit?
    ensures Placeholders([t] + q) == Placeholders(q)
  {
    PlaceholdersCons(t, q);
    assert [] + Placeholders(q) == Placeholders(q);
  }

  /** Literal text after a query adds no placeholder. */
  lemma LiteralLast(q: seq<Token>, t: Token)
    requires t.Lit?
    ensures Placeholders(q + [t]) == Placeholders(q)
  {
    PlaceholdersAppend(q, [t]);
    PlaceholdersCons(t, []);
    assert Placeholders(q) + [] == Placeholders(q);
  }

  /** Literal text only: no placeholders. */
  lemma LiteralsOnly(q: seq<Token>)
    requires forall i :: 0 <= i < |q| ==> q[i].Lit?
    ensures Placeholders(q) == []
  {
    if q != [] {
      LiteralsOnly(q[1..]);
    }
  }

  /** `parts.join(sep)`: the parts in order, `sep` between consecutive parts. */
  function Join(parts: seq<seq<Token>>, sep: seq<Token>): (r: seq<Token>)
    ensures |parts| == 1 ==> r == parts[0]
    ensures |parts| == 2 ==> r == parts[0] + sep + parts[1]
  {
    if parts == [] then []
    else if |parts| == 1 then parts[0]
    else parts[0] + sep + Join(parts[1..], sep)
  }
}

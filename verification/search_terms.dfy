/** From the tokens of a query to weighted search terms. */
module SearchTerms {
  import opened Wrappers
  import opened Lookup
  import opened Search

  /** A token is a run of Han characters or any other word. */
  datatype Token = Han(text: string) | Word(text: string)

  const TERM_LIMIT := 32

  function Grams(s: string, size: nat): seq<Term>
    requires 0 < size <= |s|
  {
    seq(|s| - size + 1, i requires 0 <= i <= |s| - size => Term(s[i..i + size], 8 * size))
  }

  function GramsFrom(s: string, size: nat): seq<Term>
    requires size >= 2
    decreases |s| + 1 - size
  {
    if size > Min(4, |s|) then [] else Grams(s, size) + GramsFrom(s, size + 1)
  }

  /** The terms of one token in the order they are set. */
  function TokenTerms(token: Token): seq<Term> {
    match token
    case Han(s) => GramsFrom(s, 2) + (if |s| == 1 then [Term(s, 5)] else [])
    case Word(s) => if |s| >= 2 then [Term(s, if |s| >= 6 then 22 else 15)] else []
  }

  lemma GramsOfSize(s: string, size: nat, t: Term)
    requires 0 < size <= |s|
    ensures t in Grams(s, size) <==> |t.value| == size && t.weight == 8 * size && Contains(s, t.value)
  {
    if Contains(s, t.value) && |t.value| == size && t.weight == 8 * size {
      var i :| 0 <= i <= |s| && StartsAt(s, t.value, i);
      assert Grams(s, size)[i] == t;
    }
    if t in Grams(s, size) {
      var i :| 0 <= i < |Grams(s, size)| && Grams(s, size)[i] == t;
      assert StartsAt(s, t.value, i);
    }
  }

  lemma {:induction false} GramsExact(s: string, size: nat, t: Term)
    requires size >= 2
    ensures t in GramsFrom(s, size) <==>
            size <= |t.value| <= Min(4, |s|) && t.weight == 8 * |t.value| && Contains(s, t.value)
    decreases |s| + 1 - size
  {
    if size <= Min(4, |s|) {
      GramsOfSize(s, size, t);
      GramsExact(s, size + 1, t);
    }
  }

  /**
    A run of Han characters gives each of its pieces of two to four characters, at
    0.8 a character, or itself at 0.5 when it is one character; a word of two or more
    gives itself, at 2.2 from six characters on and at 1.5 below.
   */
  lemma TokenTermsExact(token: Token, t: Term)
    ensures t in TokenTerms(token) <==>
            match token
            case Word(s) => t.value == s && |s| >= 2 && t.weight == (if |s| >= 6 then 22 else 15)
            case Han(s) =>
              if |s| == 1 then t == Term(s, 5)
              else 2 <= |t.value| <= Min(4, |s|) && t.weight == 8 * |t.value| && Contains(s, t.value)
  {
    if token.Han? {
      GramsExact(token.text, 2, t);
    }
  }

  /** `Map.set`: the last weight at the first position. */
  function PutTerm(terms: seq<Term>, t: Term): (r: seq<Term>) {
    if terms == [] then [t]
    else if terms[0].value == t.value then [t] + terms[1..]
    else [terms[0]] + PutTerm(terms[1..], t)
  }

  function PutAll(terms: seq<Term>, more: seq<Term>): seq<Term> {
    if more == [] then terms else PutTerm(PutAll(terms, more[..|more| - 1]), more[|more| - 1])
  }

  /** The terms of all tokens in the order they are set. */
  function Stream(tokens: seq<Token>): seq<Term> {
    if tokens == [] then [] else Stream(tokens[..|tokens| - 1]) + TokenTerms(tokens[|tokens| - 1])
  }

  function Values(terms: seq<Term>): (values: seq<string>)
    ensures |values| == |terms|
  {
    seq(|terms|, i requires 0 <= i < |terms| => terms[i].value)
  }

  method SetAll(terms: seq<Term>, token: Token) returns (after: seq<Term>)
    ensures after == PutAll(terms, TokenTerms(token))
  {
    after := terms;
    var more := TokenTerms(token);
    for i := 0 to |more|
      invariant after == PutAll(terms, more[..i])
    {
      assert more[..i + 1][..i] == more[..i];
      after := PutTerm(after, more[i]);
    }
    assert more[..|more|] == more;
  }

  lemma {:induction false} PutAllConcat(terms: seq<Term>, a: seq<Term>, b: seq<Term>)
    ensures PutAll(terms, a + b) == PutAll(PutAll(terms, a), b)
  {
    if b == [] {
      assert a + b == a;
    } else {
      var n := |b| - 1;
      PutAllConcat(terms, a, b[..n]);
      assert (a + b)[..|a + b| - 1] == a + b[..n];
    }
  }

  /** The query's terms: set one after another, and the first 32 kept. */
  method TermsOf(tokens: seq<Token>) returns (terms: seq<Term>)
    ensures var all := PutAll([], Stream(tokens)); terms == all[..Min(32, |all|)]
  {
    terms := [];
    for i := 0 to |tokens|
      invariant terms == PutAll([], Stream(tokens[..i]))
    {
      assert tokens[..i + 1][..i] == tokens[..i];
      PutAllConcat([], Stream(tokens[..i]), TokenTerms(tokens[i]));
      terms := SetAll(terms, tokens[i]);
    }
    assert tokens[..|tokens|] == tokens;
    terms := terms[..Min(TERM_LIMIT, |terms|)];
  }

  lemma ConsValues(t: Term, rest: seq<Term>)
    ensures Values([t] + rest) == [t.value] + Values(rest)
    ensures Distinct(Values([t] + rest)) ==> Distinct(Values(rest)) && t.value !in Values(rest)
  {
    assert Values([t] + rest) == [t.value] + Values(rest);
    ConsDistinct(t.value, Values(rest));
  }

  lemma InCons(value: string, first: string, rest: seq<string>)
    ensures value in [first] + rest <==> value == first || value in rest
  {
  }

  lemma {:induction false} PutTermValues(terms: seq<Term>, t: Term)
    ensures Values(PutTerm(terms, t)) == if t.value in Values(terms) then Values(terms) else Values(terms) + [t.value]
  {
    if terms != [] {
      var first, rest := terms[0], terms[1..];
      assert terms == [first] + rest;
      ConsValues(first, rest);
      InCons(t.value, first.value, Values(rest));
      if first.value == t.value {
        ConsValues(t, rest);
      } else {
        PutTermValues(rest, t);
        ConsValues(first, PutTerm(rest, t));
        assert [first.value] + (Values(rest) + [t.value]) == [first.value] + Values(rest) + [t.value];
      }
    }
  }

  lemma {:induction false} PutTermMembers(terms: seq<Term>, t: Term)
    requires Distinct(Values(terms))
    ensures forall x :: x in PutTerm(terms, t) ==> x == t || (x in terms && x.value != t.value)
  {
    if terms != [] {
      var rest := terms[1..];
      assert terms == [terms[0]] + rest;
      ConsValues(terms[0], rest);
      PutTermMembers(rest, t);
      forall x | x in rest
        ensures x.value in Values(rest)
      {
        var i :| 0 <= i < |rest| && rest[i] == x;
        assert Values(rest)[i] == x.value;
      }
    }
  }

  /** The term with this value that was set last. */
  ghost predicate SetLast(stream: seq<Term>, x: Term) {
    exists k :: 0 <= k < |stream| && stream[k] == x && forall j :: k < j < |stream| ==> stream[j].value != x.value
  }

  lemma SetLastMore(stream: seq<Term>, t: Term, x: Term)
    requires x == t || (SetLast(stream, x) && x.value != t.value)
    ensures SetLast(stream + [t], x)
  {
    var more := stream + [t];
    if x == t {
      assert more[|stream|] == x;
    } else {
      var k :| 0 <= k < |stream| && stream[k] == x && forall j :: k < j < |stream| ==> stream[j].value != x.value;
      assert more[k] == x;
    }
  }

  /** The terms are all different and in the order in which they first occur. */
  lemma {:induction false} TermsInOrder(stream: seq<Term>)
    ensures Values(PutAll([], stream)) == Dedupe(Values(stream))
  {
    if stream != [] {
      var n := |stream| - 1;
      TermsInOrder(stream[..n]);
      PutTermValues(PutAll([], stream[..n]), stream[n]);
      assert Values(stream)[..n] == Values(stream[..n]);
    }
  }

  /** Each has the weight set last. */
  lemma {:induction false} TermsSetLast(stream: seq<Term>)
    ensures forall x :: x in PutAll([], stream) ==> SetLast(stream, x)
  {
    if stream != [] {
      var n := |stream| - 1;
      var before := PutAll([], stream[..n]);
      TermsSetLast(stream[..n]);
      TermsInOrder(stream[..n]);
      PutTermMembers(before, stream[n]);
      assert stream == stream[..n] + [stream[n]];
      forall x | x in PutTerm(before, stream[n])
        ensures SetLast(stream, x)
      {
        SetLastMore(stream[..n], stream[n], x);
      }
    }
  }
}

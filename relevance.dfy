/**
  The relevance filter of the chat handler: the lowercased request text is
  matched against two keyword groups in priority order, and the catalog
  entries selected by the first group that matches are returned.
 */
module Relevance {
  import opened Text
  import opened Catalog

  /** Keywords that ask about acne; checked first. */
  const AcneWords: seq<string> := ["acne", "pimple", "breakout"]

  /** `r` can be obtained from `s` by deleting elements, keeping the order. */
  ghost predicate IsSubsequence<T>(r: seq<T>, s: seq<T>)
    decreases |s|
  {
    r == [] ||
    (s != [] && ((r[0] == s[0] && IsSubsequence(r[1..], s[1..])) || IsSubsequence(r, s[1..])))
  }

  /** Everything in a subsequence is taken from the original sequence. */
  lemma {:induction false} SubsequenceMembers<T>(r: seq<T>, s: seq<T>)
    requires IsSubsequence(r, s)
    ensures forall x :: x in r ==> x in s
    decreases |s|
  {
    if r != [] {
      if r[0] == s[0] && IsSubsequence(r[1..], s[1..]) {
        SubsequenceMembers(r[1..], s[1..]);
        assert r == [r[0]] + r[1..];
      } else {
        SubsequenceMembers(r, s[1..]);
      }
    }
  }

  /**
    `r` is exactly the entries of `s` that satisfy `keep`, in the order of
    `s`: every entry of `s` that satisfies `keep` appears in `r` as many
    times as in `s`, no other entry appears, and the order is kept.
   */
  ghost predicate SelectedFrom(r: seq<Product>, s: seq<Product>, keep: Product -> bool) {
    && IsSubsequence(r, s)
    && (forall k :: 0 <= k < |r| ==> keep(r[k]))
    && (forall p :: multiset(r)[p] == if keep(p) then multiset(s)[p] else 0)
  }

  /** A list comprehension `[p for p in s if keep(p)]`. */
  function Select(s: seq<Product>, keep: Product -> bool): (r: seq<Product>)
    ensures SelectedFrom(r, s, keep)
    decreases |s|
  {
    if s == [] then []
    else
      var rest := Select(s[1..], keep);
      assert s == [s[0]] + s[1..];
      if keep(s[0]) then
        assert ([s[0]] + rest)[1..] == rest;
        [s[0]] + rest
      else
        rest
  }

  /** Selecting by a condition every entry meets keeps the whole sequence. */
  lemma {:induction false} SelectAll(s: seq<Product>, keep: Product -> bool)
    requires forall k :: 0 <= k < |s| ==> keep(s[k])
    ensures Select(s, keep) == s
    decreases |s|
  {
    if s != [] {
      SelectAll(s[1..], keep);
      assert s == [s[0]] + s[1..];
    }
  }

  /** A subsequence holds no more copies of any value than the original. */
  lemma {:induction false} SubsequenceMultiset<T>(r: seq<T>, s: seq<T>)
    requires IsSubsequence(r, s)
    ensures multiset(r) <= multiset(s)
    decreases |s|
  {
    if r != [] {
      assert s == [s[0]] + s[1..];
      if r[0] == s[0] && IsSubsequence(r[1..], s[1..]) {
        SubsequenceMultiset(r[1..], s[1..]);
        assert r == [r[0]] + r[1..];
      } else {
        SubsequenceMultiset(r, s[1..]);
      }
    }
  }

  /**
    `SelectedFrom` pins the result down: any sequence it describes is the
    comprehension's result, so the filter's contract is exact.
   */
  lemma {:induction false} SelectedFromIsSelect(r: seq<Product>, s: seq<Product>, keep: Product -> bool)
    requires SelectedFrom(r, s, keep)
    ensures r == Select(s, keep)
    decreases |s|
  {
    if s == [] {
      return;
    }
    var head, tail := s[0], s[1..];
    assert s == [head] + tail;
    if r == [] {
      assert multiset(s)[head] > 0;
      assert !keep(head);
      forall p | keep(p) ensures multiset(tail)[p] == 0 {
        assert multiset(s)[p] == 0;
      }
      SelectedFromIsSelect(r, tail, keep);
    } else if r[0] == head && IsSubsequence(r[1..], tail) {
      assert keep(head);
      assert r == [head] + r[1..];
      forall p ensures multiset(r[1..])[p] == if keep(p) then multiset(tail)[p] else 0 {
        assert multiset(r)[p] == multiset([head])[p] + multiset(r[1..])[p];
      }
      SelectedFromIsSelect(r[1..], tail, keep);
    } else {
      assert IsSubsequence(r, tail);
      if keep(head) {
        SubsequenceMultiset(r, tail);
        assert false;
      }
      forall p ensures multiset(r)[p] == if keep(p) then multiset(tail)[p] else 0 {
        if keep(p) {
          assert p != head;
        }
      }
      SelectedFromIsSelect(r, tail, keep);
    }
  }

  /** `any(word in text for word in words)`. */
  function MentionsAny(text: string, words: seq<string>): (hit: bool)
    ensures hit <==> exists k :: 0 <= k < |words| && Occurs(words[k], text)
    decreases |words|
  {
    if words == [] then false
    else
      Contains(text, words[0]) || MentionsAny(text, words[1..])
  }

  function IsAcneProne(p: Product): bool { p.skinType == "acne-prone" }

  function IsFaceWash(p: Product): bool { p.kind == "face wash" }

  /** The lowercased request mentions one of the acne keywords. */
  ghost predicate AsksAboutAcne(message: string) {
    var lower := ToLower(message);
    Occurs("acne", lower) || Occurs("pimple", lower) || Occurs("breakout", lower)
  }

  /** The lowercased request mentions a face wash or a cleanser. */
  ghost predicate AsksAboutFaceWash(message: string) {
    var lower := ToLower(message);
    Occurs("face wash", lower) || Occurs("cleanser", lower)
  }

  /**
    The products recommended for `message`. The acne rule wins over the
    face-wash rule; a message matching neither gets no products.
   */
  function Relevant(message: string, catalog: seq<Product>): (recs: seq<Product>)
    ensures IsSubsequence(recs, catalog)
    ensures AsksAboutAcne(message) ==> SelectedFrom(recs, catalog, IsAcneProne)
    ensures !AsksAboutAcne(message) && AsksAboutFaceWash(message) ==>
              SelectedFrom(recs, catalog, IsFaceWash)
    ensures !AsksAboutAcne(message) && !AsksAboutFaceWash(message) ==> recs == []
  {
    var lower := ToLower(message);
    assert MentionsAny(lower, AcneWords) <==> AsksAboutAcne(message) by {
      assert AcneWords[0] == "acne" && AcneWords[1] == "pimple" && AcneWords[2] == "breakout";
    }
    if MentionsAny(lower, AcneWords) then
      Select(catalog, IsAcneProne)
    else if Contains(lower, "face wash") || Contains(lower, "cleanser") then
      Select(catalog, IsFaceWash)
    else
      []
  }

  /** A recommendation is always an unmodified catalog entry. */
  lemma RecommendationsFromCatalog(message: string, catalog: seq<Product>)
    ensures forall p :: p in Relevant(message, catalog) ==> p in catalog
  {
    SubsequenceMembers(Relevant(message, catalog), catalog);
  }

  /** Matching ignores letter case: a lowercased request gets the same products. */
  lemma RelevantIgnoresCase(message: string, catalog: seq<Product>)
    ensures Relevant(ToLower(message), catalog) == Relevant(message, catalog)
  {
    LowerIdempotent(message);
  }
}

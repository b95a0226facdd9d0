/** The alphabetical table of contents (script.js:287-322): every verse is filed
    under the letter its text starts with, when that letter is one of the 41
    letters of the index, and one group per letter that received verses is
    rendered, in the order of the letters. */
module AlphaToc {
  import opened Document

  /** The letters of the index (script.js:288): the vowels अ to औ and the
      consonants क to ह, without ऋ, ङ, ञ and the other rarer letters. */
  const Letters: string := "अआइईउऊएऐओऔकखगघचछजझटठडढणतथदधनपफबभमयरलवशषसह"

  /** The letters are listed in code-point order, so "the order of the letters"
      and "ascending code point" are the same order. */
  lemma LettersAscending()
    ensures |Letters| == 41 && Ascending(Letters)
  {
    assert forall a :: 0 <= a < |Letters| - 1 ==> Letters[a] < Letters[a + 1];
    forall a, b | 0 <= a < b < |Letters|
      ensures Letters[a] < Letters[b]
    {
      AscendingStep(Letters, a, b);
    }
  }

  /** Each letter comes after the ones before it. */
  predicate Ascending(letters: string) {
    forall a, b :: 0 <= a < b < |letters| ==> letters[a] < letters[b]
  }

  lemma {:induction false} AscendingStep(s: string, a: nat, b: nat)
    requires forall i :: 0 <= i < |s| - 1 ==> s[i] < s[i + 1]
    requires a < b < |s|
    ensures s[a] < s[b]
    decreases b - a
  {
    if a + 1 < b {
      AscendingStep(s, a + 1, b);
    }
  }

  /** `vachan.text.charAt(0)` is `letter`: an empty text has no first character
      and is filed nowhere (script.js:290). */
  predicate FiledUnder(v: Vachan, letter: char) {
    v.text != [] && v.text[0] == letter
  }

  /** The verses filed under `letter`, in the order of `vs`. */
  function Bucket(vs: seq<Vachan>, letter: char): (b: seq<Vachan>)
    ensures |b| <= |vs|
    ensures forall j :: 0 <= j < |b| ==> FiledUnder(b[j], letter)
  {
    if vs == [] then []
    else
      var v := vs[|vs| - 1];
      Bucket(vs[..|vs| - 1], letter) + (if FiledUnder(v, letter) then [v] else [])
  }

  /** `groupedVachans` after the verses `vs` were filed: one list per letter. */
  predicate GroupedAs(groups: map<char, seq<Vachan>>, vs: seq<Vachan>, letters: string) {
    (forall l :: l in groups <==> l in letters) &&
    forall l :: l in groups ==> groups[l] == Bucket(vs, l)
  }

  /** script.js:289-290: start with an empty list per letter and push every verse
      onto the list of its first character, if there is one. */
  method GroupVachans(vs: seq<Vachan>, letters: string) returns (groups: map<char, seq<Vachan>>)
    ensures GroupedAs(groups, vs, letters)
  {
    groups := map l | l in letters :: [];
    for i := 0 to |vs|
      invariant GroupedAs(groups, vs[..i], letters)
    {
      var v := vs[i];
      assert vs[..i + 1][..i] == vs[..i];
      if v.text != [] && v.text[0] in groups {
        var first := v.text[0];
        groups := groups[first := groups[first] + [v]];
      }
    }
    assert vs[..|vs|] == vs;
  }

  /** A verse lands in the list of a letter exactly when its text starts with
      that letter, so it lands in one list at most, and in none when its text is
      empty or starts with a character outside the index. */
  lemma {:induction false} BucketMembers(vs: seq<Vachan>, letter: char, v: Vachan)
    ensures v in Bucket(vs, letter) <==> v in vs && FiledUnder(v, letter)
  {
    if vs != [] {
      var init := vs[..|vs| - 1];
      BucketMembers(init, letter, v);
      assert vs == init + [vs[|vs| - 1]];
    }
  }

  /** Filing keeps the order of the verses: the verses of `a` come before those
      of `b` in every list. */
  lemma {:induction false} BucketAppend(a: seq<Vachan>, b: seq<Vachan>, letter: char)
    ensures Bucket(a + b, letter) == Bucket(a, letter) + Bucket(b, letter)
    decreases |b|
  {
    if b == [] {
      assert a + b == a;
    } else {
      var b', v := b[..|b| - 1], b[|b| - 1];
      assert (a + b)[..|a + b| - 1] == a + b';
      BucketAppend(a, b', letter);
    }
  }

  /** The verses whose first character is one of `letters`, in order. */
  function Indexed(vs: seq<Vachan>, letters: string): (r: seq<Vachan>)
    ensures |r| <= |vs|
  {
    if vs == [] then []
    else
      var v := vs[|vs| - 1];
      Indexed(vs[..|vs| - 1], letters) + (if v.text != [] && v.text[0] in letters then [v] else [])
  }

  /** The sizes of the lists of `letters`, added up. */
  function Tally(vs: seq<Vachan>, letters: string): nat {
    if letters == [] then 0 else Tally(vs, letters[..|letters| - 1]) + |Bucket(vs, letters[|letters| - 1])|
  }

  /** How many of `letters` the verse `v` is filed under. */
  function Hits(v: Vachan, letters: string): nat {
    if letters == [] then 0 else Hits(v, letters[..|letters| - 1]) + (if FiledUnder(v, letters[|letters| - 1]) then 1 else 0)
  }

  lemma {:induction false} HitsOfDistinct(v: Vachan, letters: string)
    requires Ascending(letters)
    ensures Hits(v, letters) == if v.text != [] && v.text[0] in letters then 1 else 0
  {
    if letters != [] {
      var init, l := letters[..|letters| - 1], letters[|letters| - 1];
      HitsOfDistinct(v, init);
      assert letters == init + [l];
      if FiledUnder(v, l) {
        assert v.text[0] !in init by {
          forall a | 0 <= a < |init| ensures init[a] != l {
            assert letters[a] < letters[|letters| - 1];
          }
        }
      }
    }
  }

  lemma {:induction false} TallySnoc(vs: seq<Vachan>, v: Vachan, letters: string)
    ensures Tally(vs + [v], letters) == Tally(vs, letters) + Hits(v, letters)
  {
    if letters != [] {
      var init, l := letters[..|letters| - 1], letters[|letters| - 1];
      TallySnoc(vs, v, init);
      assert (vs + [v])[..|vs|] == vs;
    }
  }

  /** Every verse whose first character is a letter of the index is filed exactly
      once: the lists together hold as many verses as there are such verses. */
  lemma {:induction false} TallyCountsIndexed(vs: seq<Vachan>, letters: string)
    requires Ascending(letters)
    ensures Tally(vs, letters) == |Indexed(vs, letters)|
  {
    if vs == [] {
      TallyEmpty(letters);
    } else {
      var init, v := vs[..|vs| - 1], vs[|vs| - 1];
      TallyCountsIndexed(init, letters);
      assert vs == init + [v];
      TallySnoc(init, v, letters);
      HitsOfDistinct(v, letters);
    }
  }

  /** For the letters of the index in particular. */
  lemma FiledOnce(vs: seq<Vachan>)
    ensures Tally(vs, Letters) == |Indexed(vs, Letters)|
  {
    LettersAscending();
    TallyCountsIndexed(vs, Letters);
  }

  lemma {:induction false} TallyEmpty(letters: string)
    ensures Tally([], letters) == 0
  {
    if letters != [] {
      TallyEmpty(letters[..|letters| - 1]);
    }
  }

  /** A rendered group: the letter on its button and heading, and its verses. */
  datatype Group = Group(letter: char, vachans: seq<Vachan>)

  /** The groups rendered for `letters`: one per letter whose list is non-empty,
      in the order of `letters`. */
  function GroupsFor(vs: seq<Vachan>, letters: string): seq<Group> {
    if letters == [] then []
    else
      var l := letters[|letters| - 1];
      GroupsFor(vs, letters[..|letters| - 1]) + (if Bucket(vs, l) != [] then [Group(l, Bucket(vs, l))] else [])
  }

  /** What `buildAlphaToc` renders for the flat verse list `vs`. */
  function AlphaGroups(vs: seq<Vachan>): seq<Group> {
    GroupsFor(vs, Letters)
  }

  /** `buildAlphaToc` (script.js:287-322) without the DOM: file the verses, then
      walk the letters in order and render a group for each non-empty list. */
  method BuildAlphaToc(allVachans: seq<Vachan>) returns (groups: seq<Group>)
    ensures groups == AlphaGroups(allVachans)
  {
    var grouped := GroupVachans(allVachans, Letters);
    groups := RenderGroups(grouped, allVachans, Letters);
  }

  /** script.js:295-321: a group for each letter, in order, whose list is non-empty. */
  method RenderGroups(grouped: map<char, seq<Vachan>>, vs: seq<Vachan>, letters: string) returns (groups: seq<Group>)
    requires GroupedAs(grouped, vs, letters)
    ensures groups == GroupsFor(vs, letters)
  {
    groups := [];
    for i := 0 to |letters|
      invariant groups == GroupsFor(vs, letters[..i])
    {
      var letter := letters[i];
      assert letters[..i + 1][..i] == letters[..i];
      if |grouped[letter]| > 0 {
        groups := groups + [Group(letter, grouped[letter])];
      }
    }
    assert letters[..|letters|] == letters;
  }

  /** In ascending letters, every letter before the last is below it. */
  lemma BelowLast(init: string, last: char)
    requires Ascending(init + [last])
    ensures forall x :: x in init ==> x < last
  {
    forall x | x in init
      ensures x < last
    {
      var i :| 0 <= i < |init| && init[i] == x;
      assert (init + [last])[i] < (init + [last])[|init|];
    }
  }

  /** Only letters that received verses are rendered, each with its full list,
      and a letter of `letters` that received verses is rendered. */
  lemma {:induction false} GroupsForShape(vs: seq<Vachan>, letters: string)
    ensures forall g :: g in GroupsFor(vs, letters) ==>
      g.letter in letters && g.vachans != [] && g.vachans == Bucket(vs, g.letter)
    ensures forall l :: l in letters && Bucket(vs, l) != [] ==>
      exists g :: g in GroupsFor(vs, letters) && g.letter == l
  {
    if letters != [] {
      var init, l := letters[..|letters| - 1], letters[|letters| - 1];
      GroupsForShape(vs, init);
      assert letters == init + [l];
      if Bucket(vs, l) != [] {
        assert Group(l, Bucket(vs, l)) in GroupsFor(vs, letters);
      }
    }
  }

  /** Groups for ascending letters come in ascending letter order. */
  lemma {:induction false} GroupsForOrdered(vs: seq<Vachan>, letters: string)
    requires Ascending(letters)
    ensures forall a, b :: 0 <= a < b < |GroupsFor(vs, letters)| ==>
      GroupsFor(vs, letters)[a].letter < GroupsFor(vs, letters)[b].letter
  {
    if letters != [] {
      var init, l := letters[..|letters| - 1], letters[|letters| - 1];
      assert letters == init + [l];
      GroupsForOrdered(vs, init);
      GroupsForShape(vs, init);
      var G := GroupsFor(vs, init);
      BelowLast(init, l);
      assert forall a :: 0 <= a < |G| ==> G[a] in G;
    }
  }

  /** The rendered groups are the letters that received verses, each once, in
      the order of the index, each with every verse filed under it, in order. */
  lemma AlphaGroupsRendered(vs: seq<Vachan>)
    ensures forall a, b :: 0 <= a < b < |AlphaGroups(vs)| ==>
      AlphaGroups(vs)[a].letter < AlphaGroups(vs)[b].letter
    ensures forall g :: g in AlphaGroups(vs) ==>
      g.letter in Letters && g.vachans != [] && g.vachans == Bucket(vs, g.letter)
    ensures forall l :: l in Letters ==>
      ((exists g :: g in AlphaGroups(vs) && g.letter == l) <==> exists v :: v in vs && FiledUnder(v, l))
  {
    LettersAscending();
    GroupsForOrdered(vs, Letters);
    GroupsForShape(vs, Letters);
    forall l | l in Letters
      ensures (exists g :: g in AlphaGroups(vs) && g.letter == l) <==> exists v :: v in vs && FiledUnder(v, l)
    {
      if v :| v in vs && FiledUnder(v, l) {
        BucketMembers(vs, l, v);
      }
      if g :| g in AlphaGroups(vs) && g.letter == l {
        assert g.vachans[0] in Bucket(vs, l);
        BucketMembers(vs, l, g.vachans[0]);
      }
    }
  }

  /** The id of a group, the target of its letter button (script.js:300, 306). */
  function GroupAnchor(letter: char): string {
    "alpha-group-" + [letter]
  }

  /** Different letters give different anchors, so every button scrolls to the
      group of its own letter. */
  lemma GroupAnchorInjective(a: char, b: char)
    requires GroupAnchor(a) == GroupAnchor(b)
    ensures a == b
  {
    assert GroupAnchor(a)[12] == a;
  }
}

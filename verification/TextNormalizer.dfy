/** The text normalization in front of the duplicate finder: tags become spaces, runs of white space
    become one space, the ends are trimmed and letters are lowered (ASCII only). */
module TextNormalizer {
  import opened Wrappers

  function Lower(c: char): (r: char)
    ensures 'A' <= c <= 'Z' ==> 'a' <= r <= 'z' && r as int - 'a' as int == c as int - 'A' as int
    ensures !('A' <= c <= 'Z') ==> r == c
  {
    if 'A' <= c <= 'Z' then 'a' + (c - 'A') else c
  }

  // ---------- the passes ----------

  /** The position of the first c, or the length. */
  function Find(s: string, c: char): (k: nat)
    ensures k <= |s| && (k < |s| ==> s[k] == c) && forall i :: 0 <= i < k ==> s[i] != c
  {
    if s == "" || s[0] == c then 0 else 1 + Find(s[1..], c)
  }

  /** A tag starts here: an opening bracket, at least one other character, and a closing bracket. */
  predicate StartsTag(s: string) {
    s != "" && s[0] == '<' && 2 <= Find(s, '>') < |s|
  }

  function StripTags(s: string): string
    decreases |s|
  {
    if s == "" then ""
    else if StartsTag(s) then " " + StripTags(s[Find(s, '>') + 1..])
    else [s[0]] + StripTags(s[1..])
  }

  /** Leading white space removed. */
  function TrimLeft(s: string): (t: string)
    ensures |t| <= |s| && (t != "" ==> !IsSpace(t[0]))
  {
    if s != "" && IsSpace(s[0]) then TrimLeft(s[1..]) else s
  }

  function Collapse(s: string): string
    decreases |s|
  {
    if s == "" then ""
    else if IsSpace(s[0]) then " " + Collapse(TrimLeft(s))
    else [s[0]] + Collapse(s[1..])
  }

  function TrimRight(s: string): string {
    if s != "" && IsSpace(s[|s| - 1]) then TrimRight(s[..|s| - 1]) else s
  }

  function LowerAll(s: string): (t: string)
    ensures |t| == |s| && forall i :: 0 <= i < |s| ==> t[i] == Lower(s[i])
  {
    seq(|s|, i requires 0 <= i < |s| => Lower(s[i]))
  }

  function NormalizeText(s: string): string {
    LowerAll(TrimRight(TrimLeft(Collapse(StripTags(s)))))
  }

  // ---------- what a normalized text looks like ----------

  ghost predicate ClosesAtOnce(s: string, i: nat) {
    i + 1 < |s| && s[i + 1] == '>'
  }

  ghost predicate NeverCloses(s: string, i: nat) {
    forall j :: i < j < |s| ==> s[j] != '>'
  }

  /** An opening bracket is closed at once or not at all. */
  ghost predicate TagFree(s: string) {
    forall i :: 0 <= i < |s| && s[i] == '<' ==> ClosesAtOnce(s, i) || NeverCloses(s, i)
  }

  /** Only single spaces, none of them at an end. */
  ghost predicate SpacedOut(s: string) {
    && (forall i :: 0 <= i < |s| && IsSpace(s[i]) ==> s[i] == ' ')
    && (forall i, j :: 0 <= i && j == i + 1 && j < |s| ==> !(IsSpace(s[i]) && IsSpace(s[j])))
  }

  ghost predicate Trimmed(s: string) {
    s == "" || (!IsSpace(s[0]) && !IsSpace(s[|s| - 1]))
  }

  ghost predicate Lowered(s: string) {
    forall i :: 0 <= i < |s| ==> Lower(s[i]) == s[i]
  }

  ghost predicate Normal(s: string) {
    TagFree(s) && SpacedOut(s) && Trimmed(s) && Lowered(s)
  }

  // ---------- each pass brings about its part ----------

  lemma {:induction false} StripTagsAddsNothing(s: string, c: char)
    requires c != ' ' && forall i :: 0 <= i < |s| ==> s[i] != c
    ensures forall i :: 0 <= i < |StripTags(s)| ==> StripTags(s)[i] != c
    decreases |s|
  {
    if s != "" {
      StripTagsAddsNothing(if StartsTag(s) then s[Find(s, '>') + 1..] else s[1..], c);
    }
  }

  lemma TagFreeCons(c: char, t: string)
    requires TagFree(t)
    requires c == '<' ==> (t != "" && t[0] == '>') || forall j :: 0 <= j < |t| ==> t[j] != '>'
    ensures TagFree([c] + t)
  {
    var s := [c] + t;
    forall i | 0 <= i < |s| && s[i] == '<'
      ensures ClosesAtOnce(s, i) || NeverCloses(s, i)
    {
      if i > 0 {
        assert t[i - 1] == '<';
        assert ClosesAtOnce(t, i - 1) ==> ClosesAtOnce(s, i);
        if NeverCloses(t, i - 1) {
          forall j | i < j < |s|
            ensures s[j] != '>'
          {
            assert s[j] == t[j - 1];
          }
        }
      }
    }
  }

  lemma {:induction false} StripTagsStrips(s: string)
    ensures TagFree(StripTags(s))
    decreases |s|
  {
    if s != "" {
      if StartsTag(s) {
        StripTagsStrips(s[Find(s, '>') + 1..]);
        TagFreeCons(' ', StripTags(s[Find(s, '>') + 1..]));
      } else {
        StripTagsStrips(s[1..]);
        var t := StripTags(s[1..]);
        if s[0] == '<' {
          if Find(s, '>') == |s| {
            StripTagsAddsNothing(s[1..], '>');
          } else {
            assert s[1..][0] == '>' && !StartsTag(s[1..]) && t[0] == '>';
          }
        }
        TagFreeCons(s[0], t);
      }
    }
  }

  lemma {:induction false} TrimLeftIsSuffix(s: string)
    ensures |TrimLeft(s)| <= |s| && TrimLeft(s) == s[|s| - |TrimLeft(s)|..]
  {
    if s != "" && IsSpace(s[0]) {
      TrimLeftIsSuffix(s[1..]);
    }
  }

  lemma SuffixTagFree(s: string, k: nat)
    requires TagFree(s) && k <= |s|
    ensures TagFree(s[k..])
  {
    var t := s[k..];
    forall i | 0 <= i < |t| && t[i] == '<'
      ensures ClosesAtOnce(t, i) || NeverCloses(t, i)
    {
      assert s[i + k] == '<';
      assert ClosesAtOnce(s, i + k) ==> ClosesAtOnce(t, i);
      if NeverCloses(s, i + k) {
        forall j | i < j < |t|
          ensures t[j] != '>'
        {
          assert t[j] == s[j + k];
        }
      }
    }
  }

  lemma {:induction false} CollapseAddsNothing(s: string, c: char)
    requires c != ' ' && forall i :: 0 <= i < |s| ==> s[i] != c
    ensures forall i :: 0 <= i < |Collapse(s)| ==> Collapse(s)[i] != c
    decreases |s|
  {
    if s != "" {
      if IsSpace(s[0]) {
        TrimLeftIsSuffix(s);
        CollapseAddsNothing(TrimLeft(s), c);
      } else {
        CollapseAddsNothing(s[1..], c);
      }
    }
  }

  lemma {:induction false} CollapseCollapses(s: string)
    ensures SpacedOut(Collapse(s))
    ensures s != "" ==> Collapse(s) != "" && Collapse(s)[0] == (if IsSpace(s[0]) then ' ' else s[0])
    ensures TagFree(s) ==> TagFree(Collapse(s))
    decreases |s|
  {
    if s != "" {
      if IsSpace(s[0]) {
        var t := TrimLeft(s);
        TrimLeftIsSuffix(s);
        CollapseCollapses(t);
        SpacedOutCons(' ', Collapse(t));
        if TagFree(s) {
          SuffixTagFree(s, |s| - |t|);
          TagFreeCons(' ', Collapse(t));
        }
      } else {
        CollapseCollapses(s[1..]);
        SpacedOutCons(s[0], Collapse(s[1..]));
        if TagFree(s) {
          SuffixTagFree(s, 1);
          if s[0] == '<' && !(|s| > 1 && s[1] == '>') {
            CollapseAddsNothing(s[1..], '>');
          }
          TagFreeCons(s[0], Collapse(s[1..]));
        }
      }
    }
  }

  lemma SpacedOutCons(c: char, t: string)
    requires SpacedOut(t) && (IsSpace(c) ==> c == ' ' && (t == "" || !IsSpace(t[0])))
    ensures SpacedOut([c] + t)
  {
    var s := [c] + t;
    forall i, j | 0 <= i && j == i + 1 && j < |s|
      ensures !(IsSpace(s[i]) && IsSpace(s[j]))
    {
      assert s[j] == t[i];
      if i > 0 {
        assert s[i] == t[i - 1];
      }
    }
  }

  lemma {:induction false} TrimRightIsPrefix(s: string)
    ensures TrimRight(s) <= s
    ensures TrimRight(s) != "" ==> !IsSpace(TrimRight(s)[|TrimRight(s)| - 1])
  {
    if s != "" && IsSpace(s[|s| - 1]) {
      TrimRightIsPrefix(s[..|s| - 1]);
    }
  }

  lemma PrefixTagFree(s: string, k: nat)
    requires TagFree(s) && k <= |s| && (k < |s| ==> s[k] != '>')
    ensures TagFree(s[..k])
  {
    var t := s[..k];
    forall i | 0 <= i < |t| && t[i] == '<'
      ensures ClosesAtOnce(t, i) || NeverCloses(t, i)
    {
      assert s[i] == '<';
      assert ClosesAtOnce(s, i) || NeverCloses(s, i);
    }
  }

  lemma {:induction false} TrimRightCutsAtSpace(s: string)
    ensures |TrimRight(s)| < |s| ==> IsSpace(s[|TrimRight(s)|])
  {
    if s != "" && IsSpace(s[|s| - 1]) {
      TrimRightCutsAtSpace(s[..|s| - 1]);
    }
  }

  lemma PartSpacedOut(s: string, from: nat, to: nat)
    requires SpacedOut(s) && from <= to <= |s|
    ensures SpacedOut(s[from..to])
  {
    var t := s[from..to];
    forall i, j | 0 <= i && j == i + 1 && j < |t|
      ensures !(IsSpace(t[i]) && IsSpace(t[j]))
    {
      assert t[i] == s[i + from] && t[j] == s[j + from];
    }
  }

  lemma LeftTrimmed(s: string)
    requires TagFree(s) && SpacedOut(s)
    ensures TagFree(TrimLeft(s)) && SpacedOut(TrimLeft(s))
  {
    TrimLeftIsSuffix(s);
    SuffixTagFree(s, |s| - |TrimLeft(s)|);
    PartSpacedOut(s, |s| - |TrimLeft(s)|, |s|);
  }

  lemma RightTrimmed(s: string)
    requires TagFree(s) && SpacedOut(s) && (s != "" ==> !IsSpace(s[0]))
    ensures TagFree(TrimRight(s)) && SpacedOut(TrimRight(s)) && Trimmed(TrimRight(s))
  {
    TrimRightIsPrefix(s);
    TrimRightCutsAtSpace(s);
    var k := |TrimRight(s)|;
    assert TrimRight(s) == s[..k];
    PrefixTagFree(s, k);
    PartSpacedOut(s, 0, k);
    assert s[0..k] == s[..k];
  }

  lemma TrimmedPart(s: string)
    requires TagFree(s) && SpacedOut(s)
    ensures var t := TrimRight(TrimLeft(s)); TagFree(t) && SpacedOut(t) && Trimmed(t)
  {
    LeftTrimmed(s);
    RightTrimmed(TrimLeft(s));
  }

  lemma LowerKeepsShape(s: string)
    requires TagFree(s) && SpacedOut(s) && Trimmed(s)
    ensures Normal(LowerAll(s))
  {
    var t := LowerAll(s);
    assert forall i :: 0 <= i < |s| ==> (IsSpace(t[i]) <==> IsSpace(s[i])) && (t[i] == '<' <==> s[i] == '<') && (t[i] == '>' <==> s[i] == '>');
  }

  /** A normalized text has no tags, no upper case, only single spaces and none at its ends. */
  lemma NormalizedIsNormal(s: string)
    ensures Normal(NormalizeText(s))
  {
    StripTagsStrips(s);
    CollapseCollapses(StripTags(s));
    TrimmedPart(Collapse(StripTags(s)));
    LowerKeepsShape(TrimRight(TrimLeft(Collapse(StripTags(s)))));
  }

  // ---------- and each pass leaves it alone ----------

  lemma {:induction false} StripTagsKeeps(s: string)
    requires TagFree(s)
    ensures StripTags(s) == s
  {
    if s != "" {
      SuffixTagFree(s, 1);
      StripTagsKeeps(s[1..]);
      if s[0] == '<' && Find(s, '>') < |s| {
        assert s[1] == '>';
      }
    }
  }

  lemma SpacedOutTail(s: string)
    requires SpacedOut(s) && s != ""
    ensures SpacedOut(s[1..])
  {
    forall i, j | 0 <= i && j == i + 1 && j < |s[1..]|
      ensures !(IsSpace(s[1..][i]) && IsSpace(s[1..][j]))
    {
      assert s[1..][i] == s[j] && s[1..][j] == s[j + 1];
    }
  }

  lemma {:induction false} CollapseKeeps(s: string)
    requires SpacedOut(s)
    ensures Collapse(s) == s
  {
    if s != "" {
      SpacedOutTail(s);
      CollapseKeeps(s[1..]);
      if IsSpace(s[0]) {
        assert |s| > 1 ==> !IsSpace(s[1]);
        assert TrimLeft(s) == s[1..];
      }
    }
  }

  /** A text is a normalized one exactly when normalizing leaves it as it is. */
  lemma NormalIffUnchanged(s: string)
    ensures NormalizeText(s) == s <==> Normal(s)
  {
    NormalizedIsNormal(s);
    if Normal(s) {
      StripTagsKeeps(s);
      CollapseKeeps(s);
      assert LowerAll(s) == s;
    }
  }

  /** Normalizing twice is normalizing once. */
  lemma NormalizingTwice(s: string)
    ensures NormalizeText(NormalizeText(s)) == NormalizeText(s)
  {
    NormalizedIsNormal(s);
    NormalIffUnchanged(NormalizeText(s));
  }

  // ---------- what is left of a text ----------

  /** The part of s from i to k is a tag: brackets around at least one character, none of them closing. */
  ghost predicate TagFromTo(s: string, i: nat, k: nat) {
    i + 2 <= k < |s| && s[i] == '<' && s[k] == '>' && forall j :: i < j < k ==> s[j] != '>'
  }

  ghost predicate NoTagFrom(s: string, i: nat) {
    forall k: nat :: !TagFromTo(s, i, k)
  }

  lemma StartsTagIff(s: string)
    ensures StartsTag(s) <==> TagFromTo(s, 0, Find(s, '>'))
    ensures StartsTag(s) <==> !NoTagFrom(s, 0)
  {
    if k: nat :| TagFromTo(s, 0, k) {
      assert Find(s, '>') == k;
    }
  }

  lemma TailTags(s: string, i: nat)
    requires s != ""
    ensures NoTagFrom(s[1..], i) <==> NoTagFrom(s, i + 1)
  {
    var e := i + 1;
    if k: nat :| TagFromTo(s, e, k) {
      assert TagFromTo(s[1..], i, k - 1);
    }
    if k: nat :| TagFromTo(s[1..], i, k) {
      assert TagFromTo(s, i + 1, k + 1);
    }
  }

  lemma {:induction false} NothingToStrip(s: string)
    requires forall i: nat :: NoTagFrom(s, i)
    ensures StripTags(s) == s
  {
    if s != "" {
      StartsTagIff(s);
      forall i: nat ensures NoTagFrom(s[1..], i) {
        TailTags(s, i);
      }
      NothingToStrip(s[1..]);
    }
  }

  lemma TakeOneMore(s: string, i: nat, rest: string)
    requires 0 < i <= |s|
    ensures [s[0]] + (s[1..][..i - 1] + rest) == s[..i] + rest
  {
    assert s[..i] == [s[0]] + s[1..][..i - 1];
  }

  lemma StripBeforeTag(s: string, i: nat, k: nat)
    requires 0 < i < k < |s| && !StartsTag(s)
    requires StripTags(s[1..]) == s[1..][..i - 1] + (" " + StripTags(s[1..][k..]))
    ensures StripTags(s) == s[..i] + (" " + StripTags(s[k + 1..]))
  {
    assert StripTags(s) == [s[0]] + StripTags(s[1..]);
    hide *;
    assert s[1..][k..] == s[k + 1..];
    TakeOneMore(s, i, " " + StripTags(s[k + 1..]));
  }

  ghost predicate FirstTag(s: string, i: nat, k: nat) {
    TagFromTo(s, i, k) && forall j: nat :: j < i ==> NoTagFrom(s, j)
  }

  lemma FirstTagOfTail(s: string, i: nat, k: nat)
    requires FirstTag(s, i, k) && i > 0
    ensures !StartsTag(s) && FirstTag(s[1..], i - 1, k - 1)
  {
    hide NoTagFrom, StripTags, Find;
    StartsTagIff(s);
    assert NoTagFrom(s, 0);
    forall j: nat | j < i - 1
      ensures NoTagFrom(s[1..], j)
    {
      TailTags(s, j);
    }
    assert TagFromTo(s[1..], i - 1, k - 1);
  }

  /** The first tag becomes one space; what is before it stays, and the search goes on behind it. */
  lemma {:induction false} FirstTagBecomesSpace(s: string, i: nat, k: nat)
    requires FirstTag(s, i, k)
    ensures StripTags(s) == s[..i] + (" " + StripTags(s[k + 1..]))
    decreases i
  {
    if i == 0 {
      StartsTagIff(s);
      assert Find(s, '>') == k;
      hide Find, NoTagFrom;
      assert s[..0] == "" && s[..0] + (" " + StripTags(s[k + 1..])) == " " + StripTags(s[k + 1..]);
    } else {
      hide StripTags, Find, NoTagFrom;
      FirstTagOfTail(s, i, k);
      FirstTagBecomesSpace(s[1..], i - 1, k - 1);
      StripBeforeTag(s, i, k);
    }
  }

  /** The position of the first white space, or the length. */
  ghost function WordEnd(s: string): (k: nat)
    ensures k <= |s| && (k < |s| ==> IsSpace(s[k])) && forall i :: 0 <= i < k ==> !IsSpace(s[i])
  {
    if s == "" || IsSpace(s[0]) then 0 else 1 + WordEnd(s[1..])
  }

  /** The longest parts without white space, in order. */
  ghost function Words(s: string): (words: seq<string>)
    ensures forall w :: w in words ==> w != "" && forall i :: 0 <= i < |w| ==> !IsSpace(w[i])
    ensures words == [] <==> forall i :: 0 <= i < |s| ==> IsSpace(s[i])
    decreases |s|
  {
    if s == "" then []
    else if IsSpace(s[0]) then Words(s[1..])
    else [s[..WordEnd(s)]] + Words(s[WordEnd(s)..])
  }

  ghost function Join(words: seq<string>): string {
    if words == [] then "" else if |words| == 1 then words[0] else words[0] + (" " + Join(words[1..]))
  }

  lemma {:induction false} JoinIsTrimmed(words: seq<string>)
    requires words != [] && forall w :: w in words ==> w != "" && forall i :: 0 <= i < |w| ==> !IsSpace(w[i])
    ensures Join(words) != "" && Trimmed(Join(words))
  {
    if |words| > 1 {
      JoinIsTrimmed(words[1..]);
    }
  }

  lemma {:induction false} CollapseWord(s: string)
    ensures Collapse(s) == s[..WordEnd(s)] + Collapse(s[WordEnd(s)..])
  {
    if s != "" && !IsSpace(s[0]) {
      CollapseWord(s[1..]);
      assert [s[0]] + s[1..][..WordEnd(s[1..])] == s[..WordEnd(s)];
      assert s[1..][WordEnd(s[1..])..] == s[WordEnd(s)..];
    }
  }

  lemma {:induction false} WordsAfterSpace(s: string)
    ensures Words(TrimLeft(s)) == Words(s)
  {
    if s != "" && IsSpace(s[0]) {
      WordsAfterSpace(s[1..]);
    }
  }

  function SpaceIf(b: bool): string {
    if b then " " else ""
  }

  /** The words with one space between them, and one at an end where s has white space. */
  ghost function Joined(s: string): string
    requires s != ""
  {
    if Words(s) == [] then " " else SpaceIf(IsSpace(s[0])) + (Join(Words(s)) + SpaceIf(IsSpace(s[|s| - 1])))
  }

  lemma JoinedAfterSpace(s: string, t: string)
    requires s != "" && IsSpace(s[0]) && Words(t) == Words(s)
    requires t != "" ==> !IsSpace(t[0]) && t[|t| - 1] == s[|s| - 1]
    ensures Joined(s) == " " + (if t == "" then "" else Joined(t))
  {
    hide Join;
    if t != "" {
      assert Words(t) != [];
      hide Words;
      assert "" + (Join(Words(s)) + SpaceIf(IsSpace(s[|s| - 1]))) == Join(Words(s)) + SpaceIf(IsSpace(s[|s| - 1]));
    }
  }

  lemma Regroup(w: string, j: string, e: string)
    ensures (w + (" " + j)) + e == w + (" " + (j + e))
  {
    assert (" " + j) + e == " " + (j + e);
  }

  lemma JoinedStartsAtWord(s: string)
    requires s != "" && !IsSpace(s[0])
    ensures Joined(s) == Join(Words(s)) + SpaceIf(IsSpace(s[|s| - 1]))
  {
    assert Words(s) != [];
    hide Words, Join;
    assert "" + (Join(Words(s)) + SpaceIf(IsSpace(s[|s| - 1]))) == Join(Words(s)) + SpaceIf(IsSpace(s[|s| - 1]));
  }

  lemma JoinedAfterWord(s: string, k: nat)
    requires s != "" && !IsSpace(s[0]) && k == WordEnd(s)
    ensures Joined(s) == s[..k] + (if k == |s| then "" else Joined(s[k..]))
  {
    var w, t, e := s[..k], s[k..], SpaceIf(IsSpace(s[|s| - 1]));
    JoinedStartsAtWord(s);
    assert Words(s) == [w] + Words(t) && Words(s)[1..] == Words(t);
    if k == |s| {
      hide Words, Joined, WordEnd;
      assert Words(s) == [w] && w + "" == w && !IsSpace(s[k - 1]);
    } else if Words(t) == [] {
      assert IsSpace(t[|t| - 1]);
    } else {
      hide Words, WordEnd;
      assert Join(Words(s)) == w + (" " + Join(Words(t)));
      assert Joined(t) == " " + (Join(Words(t)) + e);
      hide Join, Joined;
      Regroup(w, Join(Words(t)), e);
    }
  }

  lemma {:induction false} CollapseJoins(s: string)
    requires s != ""
    ensures Collapse(s) == Joined(s)
    decreases |s|
  {
    if IsSpace(s[0]) {
      var t := TrimLeft(s);
      TrimLeftIsSuffix(s);
      WordsAfterSpace(s);
      JoinedAfterSpace(s, t);
      assert Collapse(s) == " " + Collapse(t);
      hide Words, Joined;
      if t != "" {
        CollapseJoins(t);
      }
    } else {
      var k := WordEnd(s);
      CollapseWord(s);
      JoinedAfterWord(s, k);
      hide Words, Joined;
      if k < |s| {
        CollapseJoins(s[k..]);
      }
    }
  }

  lemma TrimSpaces(t: string, left: bool, right: bool)
    requires t != "" && Trimmed(t)
    ensures TrimRight(TrimLeft(SpaceIf(left) + (t + SpaceIf(right)))) == t
  {
    var u := t + SpaceIf(right);
    TrimOneLeft(u, left);
    TrimOneRight(t, right);
  }

  lemma TrimOneLeft(u: string, left: bool)
    requires u != "" && !IsSpace(u[0])
    ensures TrimLeft(SpaceIf(left) + u) == u
  {
    assert TrimLeft(u) == u;
    if left {
      assert (" " + u)[1..] == u;
    } else {
      assert "" + u == u;
    }
  }

  lemma TrimOneRight(t: string, right: bool)
    requires t != "" && !IsSpace(t[|t| - 1])
    ensures TrimRight(t + SpaceIf(right)) == t
  {
    assert TrimRight(t) == t;
    if right {
      var u := t + " ";
      assert u[..|u| - 1] == t;
    } else {
      assert t + "" == t;
    }
  }

  /** A text is normalized to its words, in lower case and with one space between them; a tag stands for
      a space. */
  lemma NormalizedIsItsWords(s: string)
    ensures NormalizeText(s) == LowerAll(Join(Words(StripTags(s))))
  {
    var t := StripTags(s);
    if t != "" {
      CollapseJoins(t);
      if Words(t) == [] {
        assert TrimLeft(" ") == TrimLeft("") == "";
      } else {
        JoinIsTrimmed(Words(t));
        TrimSpaces(Join(Words(t)), IsSpace(t[0]), IsSpace(t[|t| - 1]));
      }
    }
  }
}

/** Saving a new question: its public id and its slug are filled in if they are blank. */
module QuestionTable {
  import opened Wrappers
  import opened Allocators

  const MAX_SLUG_BASE: nat := 180

  function Upper(c: char): (u: char)
    ensures 'a' <= c <= 'z' ==> 'A' <= u <= 'Z' && u as int - 'A' as int == c as int - 'a' as int
    ensures !('a' <= c <= 'z') ==> u == c
  {
    if 'a' <= c <= 'z' then 'A' + (c - 'a') else c
  }

  /** The first letters of the first two words of a Subject's name, or MD without any. */
  function PrefixOf(words: seq<string>): (p: string)
    requires forall w :: w in words ==> w != ""
    ensures words == [] ==> p == "MD"
    ensures words != [] ==> |p| == (if |words| == 1 then 1 else 2)
    ensures words != [] ==> forall i :: 0 <= i < |p| ==> words[i] in words && p[i] == Upper(words[i][0])
    ensures (forall w :: w in words ==> !IsDigit(w[0])) ==> NoDigits(p)
  {
    if words == [] then "MD"
    else if |words| == 1 then
      assert words[0] in words;
      [Upper(words[0][0])]
    else
      assert words[0] in words && words[1] in words;
      [Upper(words[0][0]), Upper(words[1][0])]
  }

  /** The start of the text, as much of it as there is room for; a fixed word if there is no text. */
  function SlugBase(text: string): (base: string)
    ensures 1 <= |base| <= MAX_SLUG_BASE
    ensures text == "" ==> base == "question"
    ensures text != "" ==> base <= text && (|base| == 180 || base == text)
  {
    if text == "" then "question" else if |text| <= MAX_SLUG_BASE then text else text[..MAX_SLUG_BASE]
  }

  class Questions {
    var counters: map<string, nat>
    var ids: set<string>
    var slugs: set<string>

    constructor ()
      ensures Valid() && counters == map[] && ids == {} && slugs == {}
    {
      counters, ids, slugs := map[], {}, {};
    }

    /** Every allocated id was counted. */
    ghost predicate Valid()
      reads this
    {
      forall id :: id in ids ==> exists p, n :: p in counters && n <= counters[p] && id == PublicId(p, n)
    }

    method NextNumber(prefix: string) returns (n: nat)
      modifies this`counters
      ensures n == (if prefix in old(counters) then old(counters)[prefix] else 0) + 1
      ensures counters == old(counters)[prefix := n]
    {
      if prefix !in counters {
        counters := counters[prefix := 0];
      }
      counters := counters[prefix := counters[prefix] + 1];
      n := counters[prefix];
    }

    /** A blank id is replaced by the next one of the Subject's prefix, which no other question has as
        long as no prefix has digits; a blank slug is replaced by one that is not taken. */
    method Save(words: seq<string>, text: string, publicId: string, slug: string) returns (id: string, newSlug: string)
      requires Valid() && forall w :: w in words ==> w != ""
      modifies this
      ensures Valid()
      ensures publicId != "" ==> id == publicId && counters == old(counters) && ids == old(ids)
      ensures publicId == "" ==>
        && ids == old(ids) + {id} && PrefixOf(words) in counters && counters.Keys == old(counters).Keys + {PrefixOf(words)}
        && id == PublicId(PrefixOf(words), counters[PrefixOf(words)])
        && ((forall p :: p in counters ==> NoDigits(p)) ==> id !in old(ids))
      ensures slug != "" ==> newSlug == slug
      ensures slug == "" ==> newSlug !in old(slugs) && IsFirstFree(newSlug, SlugBase(text), old(slugs))
      ensures slugs == old(slugs) + {newSlug}
    {
      id, newSlug := publicId, slug;
      if publicId == "" {
        var prefix := PrefixOf(words);
        var n := NextNumber(prefix);
        id := PublicId(prefix, n);
        NewIdIsNew(old(counters), old(ids), counters, prefix, id);
        ids := ids + {id};
      }
      if slug == "" {
        newSlug := GenerateSlug(SlugBase(text), slugs);
      }
      slugs := slugs + {newSlug};
    }
  }

  ghost predicate Counted(counters: map<string, nat>, ids: set<string>) {
    forall id :: id in ids ==> exists p, n :: p in counters && n <= counters[p] && id == PublicId(p, n)
  }

  lemma NewIdIsNew(before: map<string, nat>, ids: set<string>, after: map<string, nat>, prefix: string, id: string)
    requires Counted(before, ids) && prefix in after && id == PublicId(prefix, after[prefix])
    requires after == before[prefix := (if prefix in before then before[prefix] else 0) + 1]
    ensures Counted(after, ids + {id})
    ensures (forall p :: p in after ==> NoDigits(p)) ==> id !in ids
  {
    forall other | other in ids
      ensures exists p, n :: p in after && n <= after[p] && other == PublicId(p, n)
      ensures (forall p :: p in after ==> NoDigits(p)) ==> other != id
    {
      var p, n: nat :| p in before && n <= before[p] && other == PublicId(p, n);
      assert p in after && n <= after[p];
      if (forall q :: q in after ==> NoDigits(q)) && other == id {
        PublicIdsAreUnique(p, n, prefix, after[prefix]);
      }
    }
  }
}

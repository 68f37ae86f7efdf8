/**
 * scripts/seed-categories.ts: creates the three fixed blog categories, each
 * one only when no category with its slug exists yet.
 */
module SeedCategories {
  import opened Categories

  /** One fixed category of the seed. */
  datatype SeedEntry = SeedEntry(name: string, slug: string)

  const Seeds: seq<SeedEntry> := [
    SeedEntry("Aviation", "aviation"),
    SeedEntry("Effective Communication", "effective-communication"),
    SeedEntry("Pre-Placement Training", "pre-placement-training")
  ]

  /** The table after the first `k` entries of the seed; `newId(k)` is the id the database gives entry `k`. */
  function SeedRows(rows: seq<Category>, k: nat, newId: nat -> string): seq<Category>
    requires k <= |Seeds|
  {
    if k == 0 then rows
    else
      var before := SeedRows(rows, k - 1, newId);
      var e := Seeds[k - 1];
      if HasSlug(before, e.slug) then before else before + [Category(newId(k - 1), e.name, e.slug)]
  }

  /** The seed only appends: rows that existed are kept, unmodified and in place. */
  lemma {:induction false} SeedKeepsRows(rows: seq<Category>, k: nat, newId: nat -> string)
    requires k <= |Seeds|
    ensures |SeedRows(rows, k, newId)| >= |rows| && SeedRows(rows, k, newId)[..|rows|] == rows
  {
    if k > 0 {
      SeedKeepsRows(rows, k - 1, newId);
      var before := SeedRows(rows, k - 1, newId);
      assert (before + [Category(newId(k - 1), Seeds[k - 1].name, Seeds[k - 1].slug)])[..|rows|] == before[..|rows|];
    }
  }

  /** A slug that is present stays present. */
  lemma {:induction false} SeedKeepsSlugs(rows: seq<Category>, k: nat, newId: nat -> string, slug: string)
    requires k <= |Seeds| && HasSlug(rows, slug)
    ensures HasSlug(SeedRows(rows, k, newId), slug)
  {
    SeedKeepsRows(rows, k, newId);
    var i :| 0 <= i < |rows| && rows[i].slug == slug;
    assert SeedRows(rows, k, newId)[i] == rows[i];
  }

  /** After the first `k` entries every one of their slugs exists. */
  lemma {:induction false} SeedHasSlugs(rows: seq<Category>, k: nat, newId: nat -> string)
    requires k <= |Seeds|
    ensures forall j :: 0 <= j < k ==> HasSlug(SeedRows(rows, k, newId), Seeds[j].slug)
  {
    if k > 0 {
      SeedHasSlugs(rows, k - 1, newId);
      var before := SeedRows(rows, k - 1, newId);
      var after := SeedRows(rows, k, newId);
      forall j | 0 <= j < k ensures HasSlug(after, Seeds[j].slug) {
        if j < k - 1 {
          SeedKeepsSlugsStep(rows, k, newId, Seeds[j].slug);
        } else if !HasSlug(before, Seeds[j].slug) {
          assert after[|before|].slug == Seeds[j].slug;
        }
      }
    }
  }

  lemma SeedKeepsSlugsStep(rows: seq<Category>, k: nat, newId: nat -> string, slug: string)
    requires 0 < k <= |Seeds| && HasSlug(SeedRows(rows, k - 1, newId), slug)
    ensures HasSlug(SeedRows(rows, k, newId), slug)
  {
    var before := SeedRows(rows, k - 1, newId);
    var i :| 0 <= i < |before| && before[i].slug == slug;
    assert SeedRows(rows, k, newId)[i] == before[i];
  }

  /** The seed never adds a slug that is already present, so it keeps the slugs unique. */
  lemma {:induction false} SeedKeepsUnique(rows: seq<Category>, k: nat, newId: nat -> string)
    requires k <= |Seeds| && UniqueSlugs(rows)
    ensures UniqueSlugs(SeedRows(rows, k, newId))
  {
    if k > 0 {
      SeedKeepsUnique(rows, k - 1, newId);
      var before := SeedRows(rows, k - 1, newId);
      if !HasSlug(before, Seeds[k - 1].slug) {
        AppendKeepsUnique(before, Category(newId(k - 1), Seeds[k - 1].name, Seeds[k - 1].slug));
      }
    }
  }

  /** On a table that already holds every slug of the seed, the seed changes nothing. */
  lemma {:induction false} SeedOnSeeded(rows: seq<Category>, k: nat, newId: nat -> string)
    requires k <= |Seeds|
    requires forall j :: 0 <= j < |Seeds| ==> HasSlug(rows, Seeds[j].slug)
    ensures SeedRows(rows, k, newId) == rows
  {
    if k > 0 {
      SeedOnSeeded(rows, k - 1, newId);
    }
  }

  /** Running the seed a second time inserts nothing. */
  lemma SeedIdempotent(rows: seq<Category>, newId: nat -> string, newId': nat -> string)
    ensures SeedRows(SeedRows(rows, |Seeds|, newId), |Seeds|, newId') == SeedRows(rows, |Seeds|, newId)
  {
    SeedHasSlugs(rows, |Seeds|, newId);
    SeedOnSeeded(SeedRows(rows, |Seeds|, newId), |Seeds|, newId');
  }

  /** `main`: the loop over the three entries. */
  method Seed(table: CategoryTable, newId: nat -> string)
    requires table.Valid()
    modifies table
    ensures table.Valid()
    ensures table.rows == SeedRows(old(table.rows), |Seeds|, newId)
  {
    ghost var rows0 := table.rows;
    for k := 0 to |Seeds|
      invariant table.Valid()
      invariant table.rows == SeedRows(rows0, k, newId)
    {
      var e := Seeds[k];
      var existing := FindSlug(table.rows, e.slug);
      if existing.None? {
        var c := Category(newId(k), e.name, e.slug);
        AppendKeepsUnique(table.rows, c);
        table.rows := table.rows + [c];
      }
    }
  }
}

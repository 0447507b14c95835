/**
 * The pet-profile block tree: Gutenberg blocks as parsed from a post, the
 * plugin's profile blocks among them identified by their `name` and
 * `ownerEmail` attributes (trimmed and lower-cased), and the three recursive
 * helpers that count, find and update those blocks.  Also the shortcode's
 * starting attributes, the weight normalisation of form input, and the merge
 * of a found block's attributes.
 *
 * Block attributes are modelled as strings; `parse_blocks`, `serialize_blocks`
 * and the post queries are outside the model.
 */
module PetProfile {
  import opened Options
  import opened Php

  const PLUGIN_BLOCK := "brighttails/brighttailsmegaplugin"

  /** A parsed block: `blockName`, `attrs`, `innerBlocks`. */
  datatype Block = Block(name: string, attrs: map<string, string>, inner: seq<Block>)

  /** `isset($attrs[k]) ? $attrs[k] : ''`. */
  function Attr(attrs: map<string, string>, key: string): string {
    if key in attrs then attrs[key] else ""
  }

  function Normalize(s: string): string {
    ToLower(Trim(s))
  }

  /** A profile block for this pet and owner. */
  predicate Matches(b: Block, dogName: string, email: string) {
    && b.name == PLUGIN_BLOCK
    && Normalize(Attr(b.attrs, "name")) == Normalize(dogName)
    && Normalize(Attr(b.attrs, "ownerEmail")) == Normalize(email)
  }

  /** Every block of the tree in pre-order: a block, then its inner blocks, then its siblings. */
  function Flatten(bs: seq<Block>): (r: seq<Block>)
    ensures |r| >= |bs|
  {
    if bs == [] then [] else [bs[0]] + Flatten(bs[0].inner) + Flatten(bs[1..])
  }

  // ---------------------------------------------------------------------------
  // brighttails_count_blocks_recursive

  /** The number of blocks of a flat list that are the plugin's block. */
  function PluginCount(flat: seq<Block>): nat {
    if flat == [] then 0 else (if flat[0].name == PLUGIN_BLOCK then 1 else 0) + PluginCount(flat[1..])
  }

  lemma {:induction false} PluginCountConcat(a: seq<Block>, b: seq<Block>)
    ensures PluginCount(a + b) == PluginCount(a) + PluginCount(b)
  {
    if a == [] {
      assert a + b == b;
    } else {
      assert (a + b)[1..] == a[1..] + b;
      PluginCountConcat(a[1..], b);
    }
  }

  /** The plugin's blocks at any depth. */
  function CountBlocks(bs: seq<Block>): (n: nat)
    ensures n == PluginCount(Flatten(bs))
  {
    if bs == [] then 0
    else
      var n := (if bs[0].name == PLUGIN_BLOCK then 1 else 0) + CountBlocks(bs[0].inner) + CountBlocks(bs[1..]);
      PluginCountConcat([bs[0]] + Flatten(bs[0].inner), Flatten(bs[1..]));
      PluginCountConcat([bs[0]], Flatten(bs[0].inner));
      n
  }

  // ---------------------------------------------------------------------------
  // brighttails_find_block_by_name_email

  /**
   * The attributes of the first block satisfying `q`, as the helper searches:
   * a block that satisfies `q` is returned whatever its attributes, but a
   * result from the inner blocks is used only when it is truthy, i.e. a
   * non-empty array; otherwise the search goes on with the siblings.
   */
  function FindBy(bs: seq<Block>, q: Block -> bool): Option<map<string, string>> {
    if bs == [] then None
    else if q(bs[0]) then Some(bs[0].attrs)
    else
      var nested := FindBy(bs[0].inner, q);
      if nested.Some? && |nested.value| > 0 then nested
      else FindBy(bs[1..], q)
  }

  function MatchOf(dogName: string, email: string): Block -> bool {
    b => Matches(b, dogName, email)
  }

  /** `brighttails_find_block_by_name_email`. */
  function FindBlock(bs: seq<Block>, dogName: string, email: string): Option<map<string, string>> {
    FindBy(bs, MatchOf(dogName, email))
  }

  /** The attributes of the first block of a flat list satisfying `q`. */
  function FirstMatch(flat: seq<Block>, q: Block -> bool): (r: Option<map<string, string>>)
    ensures r.None? <==> forall k :: 0 <= k < |flat| ==> !q(flat[k])
    ensures r.Some? ==> exists k | 0 <= k < |flat| :: q(flat[k]) && flat[k].attrs == r.value
                          && forall j :: 0 <= j < k ==> !q(flat[j])
  {
    if flat == [] then None
    else if q(flat[0]) then
      assert q(flat[0]) && flat[0].attrs == flat[0].attrs;
      Some(flat[0].attrs)
    else
      var r := FirstMatch(flat[1..], q);
      assert forall k :: 1 <= k < |flat| ==> flat[k] == flat[1..][k - 1];
      if r.Some? then
        var k :| 0 <= k < |flat[1..]| && q(flat[1..][k]) && flat[1..][k].attrs == r.value
                  && forall j :: 0 <= j < k ==> !q(flat[1..][j]);
        assert q(flat[k + 1]) && flat[k + 1].attrs == r.value;
        r
      else r
  }

  lemma {:induction false} FirstMatchConcat(a: seq<Block>, b: seq<Block>, q: Block -> bool)
    ensures FirstMatch(a + b, q) == if FirstMatch(a, q).Some? then FirstMatch(a, q) else FirstMatch(b, q)
  {
    if a == [] {
      assert a + b == b;
    } else {
      assert (a + b)[1..] == a[1..] + b;
      FirstMatchConcat(a[1..], b, q);
    }
  }

  /**
   * When every block satisfying `q` has a non-empty attribute array, the
   * search returns the first such block of the whole tree in pre-order, and
   * nothing exactly when there is none.
   */
  lemma {:induction false} FindByIsFirstPreorder(bs: seq<Block>, q: Block -> bool)
    requires forall b :: q(b) ==> |b.attrs| > 0
    ensures FindBy(bs, q) == FirstMatch(Flatten(bs), q)
  {
    if bs != [] {
      var b := bs[0];
      FindByIsFirstPreorder(b.inner, q);
      FindByIsFirstPreorder(bs[1..], q);
      FirstMatchConcat([b] + Flatten(b.inner), Flatten(bs[1..]), q);
      FirstMatchConcat([b], Flatten(b.inner), q);
    }
  }

  lemma NormalizeEmpty()
    ensures Normalize("") == ""
  {
    assert Trim("") == "";
  }

  lemma KeyMakesNonEmpty(m: map<string, string>, key: string)
    requires key in m
    ensures |m| > 0
  {
    assert {key} <= m.Keys;
  }

  /** An attribute whose normalised value is not blank is set. */
  lemma SetWhenNormalizedNonBlank(attrs: map<string, string>, key: string)
    requires Normalize(Attr(attrs, key)) != ""
    ensures key in attrs
  {
    if key !in attrs {
      NormalizeEmpty();
    }
  }

  /** A block matching a pet name or owner email that is not blank has that attribute set. */
  lemma MatchedAttrsNonEmpty(b: Block, dogName: string, email: string)
    requires Normalize(dogName) != "" || Normalize(email) != ""
    requires Matches(b, dogName, email)
    ensures |b.attrs| > 0
  {
    if Normalize(dogName) != "" {
      assert Normalize(Attr(b.attrs, "name")) != "";
      SetWhenNormalizedNonBlank(b.attrs, "name");
      KeyMakesNonEmpty(b.attrs, "name");
    } else {
      assert Normalize(Attr(b.attrs, "ownerEmail")) != "";
      SetWhenNormalizedNonBlank(b.attrs, "ownerEmail");
      KeyMakesNonEmpty(b.attrs, "ownerEmail");
    }
  }

  /**
   * When the pet's name or the owner's email is not blank, the block found is
   * the first match of the whole tree in pre-order, and nothing is found
   * exactly when no block matches.
   */
  lemma FindIsFirstPreorderMatch(bs: seq<Block>, dogName: string, email: string)
    requires Normalize(dogName) != "" || Normalize(email) != ""
    ensures FindBlock(bs, dogName, email) == FirstMatch(Flatten(bs), MatchOf(dogName, email))
  {
    var q := MatchOf(dogName, email);
    forall b | q(b)
      ensures |b.attrs| > 0
    {
      MatchedAttrsNonEmpty(b, dogName, email);
    }
    FindByIsFirstPreorder(bs, q);
  }

  /** Both search terms blank: every plugin block matches, whatever its attributes. */
  lemma BlankTermsMatchBare(b: Block)
    requires b.name == PLUGIN_BLOCK && "name" !in b.attrs && "ownerEmail" !in b.attrs
    ensures MatchOf("", "")(b)
  {
    NormalizeEmpty();
    assert Attr(b.attrs, "name") == "";
    assert Attr(b.attrs, "ownerEmail") == "";
  }

  /** The search result on a group whose one inner block matches with no attributes, then a matching sibling. */
  lemma {:induction false} FindPastEmptyMatch(group: Block, nested: Block, later: Block, q: Block -> bool)
    requires !q(group) && group.inner == [nested]
    requires q(nested) && |nested.attrs| == 0
    requires q(later)
    ensures FindBy([group, later], q) == Some(later.attrs)
  {
    assert FindBy([nested], q) == Some(nested.attrs);
    assert [group, later][1..] == [later];
  }

  /** The first pre-order match of the same tree is the inner block. */
  lemma {:induction false} FirstPreorderIsInner(group: Block, nested: Block, later: Block, q: Block -> bool)
    requires !q(group) && group.inner == [nested] && nested.inner == []
    requires q(nested)
    ensures FirstMatch(Flatten([group, later]), q) == Some(nested.attrs)
  {
    assert [nested][1..] == [];
    assert Flatten([nested]) == [nested] + Flatten([]) + Flatten([]);
    assert [group, later][1..] == [later];
    var f := Flatten([group, later]);
    assert f == [group] + [nested] + Flatten([later]);
    assert f[1..] == [nested] + Flatten([later]);
  }

  /**
   * The as-written quirk: with both search terms blank, a matching nested
   * block whose attribute array is empty is skipped, and the search goes on
   * to a later sibling, although the first pre-order match is the nested one.
   */
  lemma FindSkipsEmptyNestedMatch(group: Block, nested: Block, later: Block)
    requires group.name != PLUGIN_BLOCK && group.inner == [nested]
    requires nested == Block(PLUGIN_BLOCK, map[], [])
    requires later.name == PLUGIN_BLOCK && "name" !in later.attrs && "ownerEmail" !in later.attrs
    requires |later.attrs| > 0
    ensures FirstMatch(Flatten([group, later]), MatchOf("", "")) == Some(map[])
    ensures FindBlock([group, later], "", "") == Some(later.attrs)
  {
    var q := MatchOf("", "");
    BlankTermsMatchBare(nested);
    BlankTermsMatchBare(later);
    assert !q(group);
    FindPastEmptyMatch(group, nested, later, q);
    FirstPreorderIsInner(group, nested, later, q);
  }

  // ---------------------------------------------------------------------------
  // brighttails_update_block_recursive

  /** `$attrs[key] = value` when the form value is not empty. */
  function Overwrite(attrs: map<string, string>, key: string, value: string): (r: map<string, string>)
    ensures forall k :: k != key ==> (k in r <==> k in attrs) && Attr(r, k) == Attr(attrs, k)
    ensures Attr(r, key) == if IsEmpty(value) then Attr(attrs, key) else value
  {
    if IsEmpty(value) then attrs else attrs[key := value]
  }

  /** The form's values applied to a matched block's attributes. */
  function Amend(attrs: map<string, string>, breed: string, weight: string, age: string, today: string): (r: map<string, string>)
    ensures forall k :: k != "breed" && k != "weight" && k != "age" ==> (k in r <==> k in attrs) && Attr(r, k) == Attr(attrs, k)
    ensures Attr(r, "breed") == if IsEmpty(breed) then Attr(attrs, "breed") else breed
    ensures Attr(r, "weight") == if IsEmpty(weight) then Attr(attrs, "weight") else weight
    ensures Attr(r, "age") ==
      if !IsEmpty(age) then age else if IsEmpty(Attr(attrs, "age")) then today else Attr(attrs, "age")
  {
    var a := Overwrite(Overwrite(attrs, "breed", breed), "weight", weight);
    if !IsEmpty(age) then Overwrite(a, "age", age)
    else if IsEmpty(Attr(a, "age")) then a["age" := today]
    else a
  }

  /** The form submission's search terms and values. */
  datatype Submission = Submission(dogName: string, email: string, breed: string, weight: string, age: string, today: string)

  function AmendOf(s: Submission): map<string, string> -> map<string, string> {
    attrs => Amend(attrs, s.breed, s.weight, s.age, s.today)
  }

  /** A block after the update: amended if it satisfies `q`, its inner blocks updated. */
  function UpdateOne(b: Block, q: Block -> bool, amend: map<string, string> -> map<string, string>): Block {
    Block(b.name, if q(b) then amend(b.attrs) else b.attrs, UpdateWith(b.inner, q, amend))
  }

  function UpdateWith(bs: seq<Block>, q: Block -> bool, amend: map<string, string> -> map<string, string>): (r: seq<Block>)
    ensures |r| == |bs|
  {
    seq(|bs|, k requires 0 <= k < |bs| => UpdateOne(bs[k], q, amend))
  }

  /** The tree `brighttails_update_block_recursive` returns for a submission. */
  function UpdateList(bs: seq<Block>, s: Submission): (r: seq<Block>)
    ensures |r| == |bs|
  {
    UpdateWith(bs, MatchOf(s.dogName, s.email), AmendOf(s))
  }

  /** Some block of the tree, at any depth, satisfies `q`. */
  predicate AnyMatch(bs: seq<Block>, q: Block -> bool) {
    exists k | 0 <= k < |bs| :: HasMatch(bs[k], q)
  }

  predicate HasMatch(b: Block, q: Block -> bool) {
    q(b) || AnyMatch(b.inner, q)
  }

  /** Updating one more block of a prefix appends that block, updated. */
  lemma UpdateWithSnoc(bs: seq<Block>, i: nat, q: Block -> bool, amend: map<string, string> -> map<string, string>)
    requires i < |bs|
    ensures UpdateWith(bs[..i + 1], q, amend) == UpdateWith(bs[..i], q, amend) + [UpdateOne(bs[i], q, amend)]
  {
  }

  /** One more block of a prefix has a match exactly when the prefix or that block does. */
  lemma AnyMatchSnoc(bs: seq<Block>, i: nat, q: Block -> bool)
    requires i < |bs|
    ensures AnyMatch(bs[..i + 1], q) <==> AnyMatch(bs[..i], q) || HasMatch(bs[i], q)
  {
    var p := bs[..i + 1];
    if HasMatch(bs[i], q) {
      assert HasMatch(p[i], q);
    }
    if AnyMatch(bs[..i], q) {
      var k :| 0 <= k < i && HasMatch(bs[..i][k], q);
      assert HasMatch(p[k], q);
    }
    if AnyMatch(p, q) {
      var k :| 0 <= k < i + 1 && HasMatch(p[k], q);
      if k < i {
        assert HasMatch(bs[..i][k], q);
      }
    }
  }

  /**
   * The in-place update, for any match test and amendment: each block is
   * amended when it matches and its inner blocks are updated recursively;
   * `updated` is raised on a match and never lowered.
   */
  method UpdateBlocksBy(bs: seq<Block>, q: Block -> bool, amend: map<string, string> -> map<string, string>,
                        updatedIn: bool) returns (r: seq<Block>, updated: bool)
    ensures r == UpdateWith(bs, q, amend)
    ensures updated <==> updatedIn || AnyMatch(bs, q)
    decreases bs
  {
    r := [];
    updated := updatedIn;
    var i := 0;
    while i < |bs|
      invariant 0 <= i <= |bs|
      invariant r == UpdateWith(bs[..i], q, amend)
      invariant updated <==> updatedIn || AnyMatch(bs[..i], q)
    {
      var b := bs[i];
      ghost var before := updated;
      var attrs := b.attrs;
      if q(b) {
        attrs := amend(attrs);
        updated := true;
      }
      var inner := b.inner;
      if |b.inner| > 0 {
        inner, updated := UpdateBlocksBy(b.inner, q, amend, updated);
      } else {
        assert inner == UpdateWith(b.inner, q, amend);
      }
      assert updated <==> before || HasMatch(b, q);
      UpdateWithSnoc(bs, i, q, amend);
      AnyMatchSnoc(bs, i, q);
      r := r + [Block(b.name, attrs, inner)];
      i := i + 1;
    }
    assert bs[..i] == bs;
  }

  /** `brighttails_update_block_recursive` for a form submission. */
  method UpdateBlocks(bs: seq<Block>, s: Submission, updatedIn: bool) returns (r: seq<Block>, updated: bool)
    ensures r == UpdateList(bs, s)
    ensures updated <==> updatedIn || AnyMatch(bs, MatchOf(s.dogName, s.email))
  {
    r, updated := UpdateBlocksBy(bs, MatchOf(s.dogName, s.email), AmendOf(s), updatedIn);
  }

  // ---------------------------------------------------------------------------
  // Properties of the update

  /** Matching looks only at `name` and `ownerEmail`, which an amendment never changes. */
  lemma AmendKeepsMatching(b: Block, s: Submission, dogName: string, email: string)
    ensures Matches(b.(attrs := Amend(b.attrs, s.breed, s.weight, s.age, s.today)), dogName, email) <==> Matches(b, dogName, email)
  {
    var m := Amend(b.attrs, s.breed, s.weight, s.age, s.today);
    assert Attr(m, "name") == Attr(b.attrs, "name");
    assert Attr(m, "ownerEmail") == Attr(b.attrs, "ownerEmail");
  }

  /** Same length and block names at every level. */
  predicate SameShape(xs: seq<Block>, ys: seq<Block>) {
    && |xs| == |ys|
    && forall k :: 0 <= k < |xs| ==> xs[k].name == ys[k].name && SameShape(xs[k].inner, ys[k].inner)
  }

  lemma {:induction false} UpdatePreservesShape(bs: seq<Block>, q: Block -> bool, amend: map<string, string> -> map<string, string>)
    ensures SameShape(bs, UpdateWith(bs, q, amend))
  {
    var r := UpdateWith(bs, q, amend);
    forall k | 0 <= k < |bs|
      ensures bs[k].name == r[k].name && SameShape(bs[k].inner, r[k].inner)
    {
      UpdatePreservesShape(bs[k].inner, q, amend);
    }
  }

  /** Pre-order positions are kept: the k-th block of the updated tree is the k-th block, updated. */
  lemma {:induction false} FlattenUpdate(bs: seq<Block>, q: Block -> bool, amend: map<string, string> -> map<string, string>)
    ensures |Flatten(UpdateWith(bs, q, amend))| == |Flatten(bs)|
    ensures forall k :: 0 <= k < |Flatten(bs)| ==> Flatten(UpdateWith(bs, q, amend))[k] == UpdateOne(Flatten(bs)[k], q, amend)
  {
    if bs != [] {
      var r := UpdateWith(bs, q, amend);
      assert r[0] == UpdateOne(bs[0], q, amend);
      assert r[1..] == UpdateWith(bs[1..], q, amend);
      FlattenUpdate(bs[0].inner, q, amend);
      FlattenUpdate(bs[1..], q, amend);
      var a := Flatten(bs[0].inner);
      var c := Flatten(bs[1..]);
      var a' := Flatten(r[0].inner);
      var c' := Flatten(r[1..]);
      assert Flatten(bs) == [bs[0]] + a + c;
      assert Flatten(r) == [r[0]] + a' + c';
      forall k | 0 <= k < |Flatten(bs)|
        ensures Flatten(r)[k] == UpdateOne(Flatten(bs)[k], q, amend)
      {
        if k == 0 {
        } else if k < 1 + |a| {
          assert Flatten(r)[k] == a'[k - 1];
          assert Flatten(bs)[k] == a[k - 1];
        } else {
          assert Flatten(r)[k] == c'[k - 1 - |a|];
          assert Flatten(bs)[k] == c[k - 1 - |a|];
        }
      }
    }
  }

  /**
   * Every block of the tree, at any depth, keeps its name; a block that does
   * not match keeps its attributes; a block that matches gets the amended ones.
   */
  lemma UpdateOnlyTouchesMatches(bs: seq<Block>, s: Submission)
    ensures var before := Flatten(bs);
      var after := Flatten(UpdateList(bs, s));
      && |after| == |before|
      && forall k :: 0 <= k < |before| ==>
        && after[k].name == before[k].name
        && (!Matches(before[k], s.dogName, s.email) ==> after[k].attrs == before[k].attrs)
        && (Matches(before[k], s.dogName, s.email) ==> after[k].attrs == Amend(before[k].attrs, s.breed, s.weight, s.age, s.today))
  {
    var q := MatchOf(s.dogName, s.email);
    var amend := AmendOf(s);
    FlattenUpdate(bs, q, amend);
    var before := Flatten(bs);
    var after := Flatten(UpdateList(bs, s));
    forall k | 0 <= k < |before|
      ensures after[k].name == before[k].name
      ensures !Matches(before[k], s.dogName, s.email) ==> after[k].attrs == before[k].attrs
      ensures Matches(before[k], s.dogName, s.email) ==> after[k].attrs == Amend(before[k].attrs, s.breed, s.weight, s.age, s.today)
    {
      var b := before[k];
      assert after[k] == UpdateOne(b, q, amend);
      assert q(b) == Matches(b, s.dogName, s.email);
      assert amend(b.attrs) == Amend(b.attrs, s.breed, s.weight, s.age, s.today);
    }
  }

  lemma {:induction false} AnyMatchInFlatten(bs: seq<Block>, q: Block -> bool)
    requires AnyMatch(bs, q)
    ensures exists k | 0 <= k < |Flatten(bs)| :: q(Flatten(bs)[k])
  {
    var a := Flatten(bs[0].inner);
    var c := Flatten(bs[1..]);
    var f := Flatten(bs);
    assert f == [bs[0]] + a + c;
    var k :| 0 <= k < |bs| && HasMatch(bs[k], q);
    if k == 0 {
      if q(bs[0]) {
        assert q(f[0]);
      } else {
        AnyMatchInFlatten(bs[0].inner, q);
        var j :| 0 <= j < |a| && q(a[j]);
        assert q(f[j + 1]);
      }
    } else {
      assert HasMatch(bs[1..][k - 1], q);
      AnyMatchInFlatten(bs[1..], q);
      var j :| 0 <= j < |c| && q(c[j]);
      assert q(f[j + 1 + |a|]);
    }
  }

  lemma {:induction false} FlattenMatchIsAnyMatch(bs: seq<Block>, q: Block -> bool, k: nat)
    requires k < |Flatten(bs)| && q(Flatten(bs)[k])
    ensures AnyMatch(bs, q)
  {
    var a := Flatten(bs[0].inner);
    var c := Flatten(bs[1..]);
    var f := Flatten(bs);
    assert f == [bs[0]] + a + c;
    if k == 0 {
      assert HasMatch(bs[0], q);
    } else if k < 1 + |a| {
      assert a[k - 1] == f[k];
      FlattenMatchIsAnyMatch(bs[0].inner, q, k - 1);
      assert HasMatch(bs[0], q);
    } else {
      assert c[k - 1 - |a|] == f[k];
      FlattenMatchIsAnyMatch(bs[1..], q, k - 1 - |a|);
      var j :| 0 <= j < |bs[1..]| && HasMatch(bs[1..][j], q);
      assert HasMatch(bs[j + 1], q);
    }
  }

  /** Some block satisfies `q` exactly when some block of the pre-order listing does. */
  lemma AnyMatchIsFlattenMatch(bs: seq<Block>, q: Block -> bool)
    ensures AnyMatch(bs, q) <==> exists k | 0 <= k < |Flatten(bs)| :: q(Flatten(bs)[k])
  {
    if AnyMatch(bs, q) {
      AnyMatchInFlatten(bs, q);
    }
    if exists k | 0 <= k < |Flatten(bs)| :: q(Flatten(bs)[k]) {
      var k :| 0 <= k < |Flatten(bs)| && q(Flatten(bs)[k]);
      FlattenMatchIsAnyMatch(bs, q, k);
    }
  }

  lemma {:induction false} FirstMatchMapped(f: seq<Block>, g: seq<Block>, q: Block -> bool, amend: map<string, string> -> map<string, string>)
    requires |f| == |g|
    requires forall k :: 0 <= k < |f| ==> g[k] == UpdateOne(f[k], q, amend)
    requires forall k :: 0 <= k < |f| ==> (q(g[k]) <==> q(f[k]))
    ensures var before := FirstMatch(f, q);
      var after := FirstMatch(g, q);
      (before.None? <==> after.None?)
      && (before.Some? ==> after == Some(amend(before.value)))
  {
    if f != [] {
      assert forall k :: 0 <= k < |f| - 1 ==> f[1..][k] == f[k + 1] && g[1..][k] == g[k + 1];
      FirstMatchMapped(f[1..], g[1..], q, amend);
    }
  }

  /** After the update, the find helper returns the amended attributes of the block it found before. */
  lemma UpdateThenFind(bs: seq<Block>, s: Submission)
    requires Normalize(s.dogName) != "" || Normalize(s.email) != ""
    ensures var before := FindBlock(bs, s.dogName, s.email);
      var after := FindBlock(UpdateList(bs, s), s.dogName, s.email);
      (before.None? <==> after.None?)
      && (before.Some? ==> after == Some(Amend(before.value, s.breed, s.weight, s.age, s.today)))
  {
    var q := MatchOf(s.dogName, s.email);
    var amend := AmendOf(s);
    FindIsFirstPreorderMatch(bs, s.dogName, s.email);
    FindIsFirstPreorderMatch(UpdateList(bs, s), s.dogName, s.email);
    FlattenUpdate(bs, q, amend);
    var f := Flatten(bs);
    var g := Flatten(UpdateList(bs, s));
    forall k | 0 <= k < |f|
      ensures q(g[k]) <==> q(f[k])
    {
      AmendKeepsMatching(f[k], s, s.dogName, s.email);
    }
    FirstMatchMapped(f, g, q, amend);
  }

  // ---------------------------------------------------------------------------
  // The shortcode

  /**
   * Weight from the intake form: a numeric value without "lbs" gets the unit
   * appended (after trimming); anything else is kept as entered.
   */
  function NormalizeWeight(w: string): string {
    if !Contains(ToLower(w), "lbs") && IsNumeric(Trim(w)) then Trim(w) + " lbs" else w
  }

  lemma UnitSuffixFound(t: string)
    ensures Contains(ToLower(t + " lbs"), "lbs")
  {
    ToLowerConcat(t, " lbs");
    assert ToLower(" lbs") == " lbs";
    assert ToLower(t + " lbs") == (ToLower(t) + " ") + "lbs";
    ContainsSuffix(ToLower(t) + " ", "lbs");
  }

  /** The weight shown carries the unit exactly when the input had it or was a bare number. */
  lemma NormalizeWeightUnit(w: string)
    ensures Contains(ToLower(NormalizeWeight(w)), "lbs") == (Contains(ToLower(w), "lbs") || IsNumeric(Trim(w)))
  {
    UnitSuffixFound(Trim(w));
  }

  /** Normalising a normalised weight changes nothing. */
  lemma NormalizeWeightIdempotent(w: string)
    ensures NormalizeWeight(NormalizeWeight(w)) == NormalizeWeight(w)
  {
    NormalizeWeightUnit(w);
    var r := NormalizeWeight(w);
    if r != w {
      assert Contains(ToLower(r), "lbs");
    }
  }

  /** The profile the shortcode starts from, or the missing-attributes error. */
  datatype ProfileInit = MissingAttributes | Profile(attrs: map<string, string>)

  /** `brighttails_pet_profile_shortcode` up to the data lookup. */
  function InitProfile(nameAtt: string, emailAtt: string,
                       sanitizeText: string -> string, sanitizeEmail: string -> string): (p: ProfileInit)
    ensures p.MissingAttributes? <==> IsEmpty(sanitizeText(nameAtt)) || IsEmpty(sanitizeEmail(emailAtt))
    ensures p.Profile? ==>
      && p.attrs.Keys == {"name", "age", "breed", "weight", "imageUrl", "ownerEmail"}
      && Attr(p.attrs, "name") == sanitizeText(nameAtt)
      && Attr(p.attrs, "ownerEmail") == sanitizeEmail(emailAtt)
      && Attr(p.attrs, "age") == "TBD" && Attr(p.attrs, "breed") == "TBD" && Attr(p.attrs, "weight") == "TBD"
      && Attr(p.attrs, "imageUrl") == ""
  {
    var dogName := sanitizeText(nameAtt);
    var ownerEmail := sanitizeEmail(emailAtt);
    if IsEmpty(dogName) || IsEmpty(ownerEmail) then MissingAttributes
    else Profile(map["name" := dogName, "age" := "TBD", "breed" := "TBD", "weight" := "TBD",
                     "imageUrl" := "", "ownerEmail" := ownerEmail])
  }

  /** The text step of the merge: non-empty `breed`, `weight` and `age` replace the defaults. */
  function MergeDetails(attrs: map<string, string>, found: map<string, string>): (r: map<string, string>)
    ensures forall k :: k != "breed" && k != "weight" && k != "age" ==> (k in r <==> k in attrs) && Attr(r, k) == Attr(attrs, k)
    ensures Attr(r, "breed") == if IsEmpty(Attr(found, "breed")) then Attr(attrs, "breed") else Attr(found, "breed")
    ensures Attr(r, "weight") == if IsEmpty(Attr(found, "weight")) then Attr(attrs, "weight") else Attr(found, "weight")
    ensures Attr(r, "age") == if IsEmpty(Attr(found, "age")) then Attr(attrs, "age") else Attr(found, "age")
  {
    Overwrite(Overwrite(Overwrite(attrs, "breed", Attr(found, "breed")), "weight", Attr(found, "weight")), "age", Attr(found, "age"))
  }

  /**
   * The image step of the merge: a non-empty `imageUrl` is taken as is;
   * without one, a non-empty `imageId` is looked up as an attachment.
   */
  function MergeImage(attrs: map<string, string>, found: map<string, string>,
                      attachmentUrl: string -> Option<string>): (r: map<string, string>)
    ensures forall k :: k != "imageUrl" ==> (k in r <==> k in attrs) && Attr(r, k) == Attr(attrs, k)
    ensures Attr(r, "imageUrl") ==
      if !IsEmpty(Attr(found, "imageUrl")) then Attr(found, "imageUrl")
      else if !IsEmpty(Attr(found, "imageId")) && Truthy(attachmentUrl(Attr(found, "imageId")))
        then attachmentUrl(Attr(found, "imageId")).value
      else Attr(attrs, "imageUrl")
  {
    if !IsEmpty(Attr(found, "imageUrl")) then Overwrite(attrs, "imageUrl", Attr(found, "imageUrl"))
    else if !IsEmpty(Attr(found, "imageId")) && Truthy(attachmentUrl(Attr(found, "imageId"))) then
      Overwrite(attrs, "imageUrl", attachmentUrl(Attr(found, "imageId")).value)
    else attrs
  }

  /**
   * The fallback merge of a found block's attributes: the text step, then the
   * image step.
   */
  function MergeFound(attrs: map<string, string>, found: map<string, string>,
                      attachmentUrl: string -> Option<string>): map<string, string> {
    MergeImage(MergeDetails(attrs, found), found, attachmentUrl)
  }

  /** Non-empty found `breed`, `weight` and `age` replace the defaults; empty ones leave them. */
  lemma MergeFoundDetails(attrs: map<string, string>, found: map<string, string>,
                          attachmentUrl: string -> Option<string>)
    ensures var r := MergeFound(attrs, found, attachmentUrl);
      && Attr(r, "breed") == (if IsEmpty(Attr(found, "breed")) then Attr(attrs, "breed") else Attr(found, "breed"))
      && Attr(r, "weight") == (if IsEmpty(Attr(found, "weight")) then Attr(attrs, "weight") else Attr(found, "weight"))
      && Attr(r, "age") == (if IsEmpty(Attr(found, "age")) then Attr(attrs, "age") else Attr(found, "age"))
  {
    var d := MergeDetails(attrs, found);
    var r := MergeImage(d, found, attachmentUrl);
    assert Attr(r, "breed") == Attr(d, "breed");
    assert Attr(r, "weight") == Attr(d, "weight");
    assert Attr(r, "age") == Attr(d, "age");
  }

  /**
   * A non-empty found `imageUrl` is taken; without one, a non-empty `imageId`
   * whose attachment lookup is truthy supplies the URL; otherwise the default stays.
   */
  lemma MergeFoundImage(attrs: map<string, string>, found: map<string, string>,
                        attachmentUrl: string -> Option<string>)
    ensures Attr(MergeFound(attrs, found, attachmentUrl), "imageUrl") ==
      if !IsEmpty(Attr(found, "imageUrl")) then Attr(found, "imageUrl")
      else if !IsEmpty(Attr(found, "imageId")) && Truthy(attachmentUrl(Attr(found, "imageId")))
        then attachmentUrl(Attr(found, "imageId")).value
      else Attr(attrs, "imageUrl")
  {
    assert Attr(MergeDetails(attrs, found), "imageUrl") == Attr(attrs, "imageUrl");
  }

  /** The merge leaves every attribute other than the four it fills untouched. */
  lemma MergeFoundKeepsOthers(attrs: map<string, string>, found: map<string, string>,
                              attachmentUrl: string -> Option<string>)
    ensures var r := MergeFound(attrs, found, attachmentUrl);
      forall k :: k != "breed" && k != "weight" && k != "age" && k != "imageUrl" ==>
        (k in r <==> k in attrs) && Attr(r, k) == Attr(attrs, k)
  {
    var d := MergeDetails(attrs, found);
    var r := MergeFound(attrs, found, attachmentUrl);
    forall k | k != "breed" && k != "weight" && k != "age" && k != "imageUrl"
      ensures (k in r <==> k in attrs) && Attr(r, k) == Attr(attrs, k)
    {
      assert (k in r <==> k in d) && Attr(r, k) == Attr(d, k);
    }
  }

  /** The find result for a post is truthy: a non-empty attribute array. */
  predicate Truthful(f: Option<map<string, string>>) {
    f.Some? && |f.value| > 0
  }

  /**
   * The fallback search over the posts' block trees, in order, for any find
   * helper: the first post with a truthy find result supplies the
   * attributes; otherwise the defaults stay.
   */
  function ProfileFromPostsBy(attrs: map<string, string>, posts: seq<seq<Block>>,
                              find: seq<Block> -> Option<map<string, string>>,
                              attachmentUrl: string -> Option<string>): (r: map<string, string>)
    ensures (forall p :: 0 <= p < |posts| ==> !Truthful(find(posts[p]))) ==> r == attrs
  {
    if posts == [] then attrs
    else if Truthful(find(posts[0])) then MergeFound(attrs, find(posts[0]).value, attachmentUrl)
    else ProfileFromPostsBy(attrs, posts[1..], find, attachmentUrl)
  }

  function FindIn(dogName: string, email: string): seq<Block> -> Option<map<string, string>> {
    post => FindBlock(post, dogName, email)
  }

  /** The shortcode's fallback search for this pet and owner. */
  function ProfileFromPosts(attrs: map<string, string>, posts: seq<seq<Block>>, dogName: string, email: string,
                            attachmentUrl: string -> Option<string>): map<string, string> {
    ProfileFromPostsBy(attrs, posts, FindIn(dogName, email), attachmentUrl)
  }

  /** The first post with a truthy find result is the one merged, whatever the later posts hold. */
  lemma {:induction false} ProfileFromFirstFound(attrs: map<string, string>, posts: seq<seq<Block>>, p: nat,
                                                 find: seq<Block> -> Option<map<string, string>>,
                                                 attachmentUrl: string -> Option<string>)
    requires p < |posts| && Truthful(find(posts[p]))
    requires forall j :: 0 <= j < p ==> !Truthful(find(posts[j]))
    ensures ProfileFromPostsBy(attrs, posts, find, attachmentUrl) == MergeFound(attrs, find(posts[p]).value, attachmentUrl)
  {
    if p > 0 {
      assert !Truthful(find(posts[0]));
      assert forall j :: 0 <= j < p - 1 ==> posts[1..][j] == posts[j + 1];
      ProfileFromFirstFound(attrs, posts[1..], p - 1, find, attachmentUrl);
    }
  }

  /** No post with a truthy find result: the defaults are shown. */
  lemma ProfileDefaultsWhenNotFound(attrs: map<string, string>, posts: seq<seq<Block>>, dogName: string, email: string,
                                    attachmentUrl: string -> Option<string>)
    requires forall p :: 0 <= p < |posts| ==> !Truthful(FindBlock(posts[p], dogName, email))
    ensures ProfileFromPosts(attrs, posts, dogName, email, attachmentUrl) == attrs
  {
    var find := FindIn(dogName, email);
    assert forall p :: 0 <= p < |posts| ==> find(posts[p]) == FindBlock(posts[p], dogName, email);
  }
}

/** The weave's diff, put in its place: flattened into text, ends and tags, diffed, it is a diff the fold may take. */
module WeaveDiff {
  import opened Common
  import opened Script
  import opened EditLists
  import opened EditCanon
  import opened CfoldModel
  import opened CfoldFold
  import opened CfoldHistory
  import opened NeilTokens
  import opened Patience
  import opened PatienceLines
  import opened PatienceDiff
  import opened TokenDiff

  /** A token list as the diff's passes see it: one text, running ends, tags. */
  ghost function Flat(toks: seq<Token>): Toks {
    if toks == [] then Toks([], [], [])
    else
      var f, t := Flat(toks[..|toks| - 1]), toks[|toks| - 1];
      Toks(f.src + t.bytes, f.ends + [|f.src| + |t.bytes|], f.tags + [t.tag])
  }

  ghost predicate FlatOf(f: Toks, toks: seq<Token>) {
    && ToksOk(f) && |f.ends| == |toks| && f.tags == Tags(toks)
    && (if toks == [] then f.src == [] else f.ends[|toks| - 1] == |f.src|)
    && forall i | 0 <= i < |toks| :: TextAt(f, i) == toks[i].bytes
  }

  ghost function Tags(toks: seq<Token>): (r: seq<nat>)
    ensures |r| == |toks|
  {
    if toks == [] then [] else Tags(toks[..|toks| - 1]) + [toks[|toks| - 1].tag]
  }

  /** Cut at its ends, the flat text is the tokens' own bytes. */
  lemma {:induction false} FlatCuts(toks: seq<Token>)
    requires Solid(toks)
    ensures FlatOf(Flat(toks), toks)
  {
    hide FlatOf;
    if toks == [] {
      NothingCuts();
    } else {
      var init, t := toks[..|toks| - 1], toks[|toks| - 1];
      FlatCuts(init);
      CutMore(Flat(init), init, t);
      assert init + [t] == toks;
    }
  }

  lemma NothingCuts()
    ensures FlatOf(Toks([], [], []), [])
  {
  }

  lemma CutMore(f: Toks, init: seq<Token>, t: Token)
    requires FlatOf(f, init) && t.bytes != []
    ensures FlatOf(Toks(f.src + t.bytes, f.ends + [|f.src| + |t.bytes|], f.tags + [t.tag]), init + [t])
  {
    hide Tags;
    var toks := init + [t];
    var g := Toks(f.src + t.bytes, f.ends + [|f.src| + |t.bytes|], f.tags + [t.tag]);
    TagsMore(init, t);
    forall i | 0 <= i < |toks|
      ensures TextAt(g, i) == toks[i].bytes
    {
      if i < |init| {
        assert Lo(g, i) == Lo(f, i) && Hi(g, i) == Hi(f, i) <= |f.src|;
        assert TextAt(f, i) == init[i].bytes;
        assert i > 0 ==> f.ends[i - 1] < f.ends[i];
        assert g.src[Lo(f, i)..Hi(f, i)] == f.src[Lo(f, i)..Hi(f, i)];
      } else {
        assert Lo(g, i) == |f.src|;
        assert g.src[|f.src|..|g.src|] == t.bytes;
      }
    }
  }

  lemma TagsMore(init: seq<Token>, t: Token)
    ensures Tags(init + [t]) == Tags(init) + [t.tag]
  {
    assert (init + [t])[..|init|] == init;
  }

  lemma {:induction false} BytesAt(toks: seq<Token>, i: nat)
    requires i < |toks|
    ensures |BytesOf(toks)| == |toks| && BytesOf(toks)[i] == toks[i].bytes
  {
    BytesOfLength(toks);
    if i > 0 {
      BytesAt(toks[1..], i - 1);
    }
  }

  /** So the passes' token texts are the bytes the weave keeps. */
  lemma FlatTexts(f: Toks, toks: seq<Token>)
    requires FlatOf(f, toks)
    ensures Texts(f) == BytesOf(toks)
  {
    hide ToksOk, TextAt, Tags;
    BytesOfLength(toks);
    forall i | 0 <= i < |toks|
      ensures Texts(f)[i] == BytesOf(toks)[i]
    {
      BytesAt(toks, i);
    }
  }

  /** The tokens' bytes one behind the other, a running end and a tag for each. */
  method Collect(toks: seq<Token>) returns (f: Toks)
    requires Solid(toks)
    ensures f == Flat(toks)
  {
    var src: seq<Byte>, ends: seq<nat>, tags: seq<nat>, cum: nat := [], [], [], 0;
    for k := 0 to |toks|
      invariant Toks(src, ends, tags) == Flat(toks[..k]) && cum == |src|
    {
      assert toks[..k + 1][..k] == toks[..k];
      src, cum := src + toks[k].bytes, cum + |toks[k].bytes|;
      ends, tags := ends + [cum], tags + [toks[k].tag];
    }
    assert toks[..|toks|] == toks;
    f := Toks(src, ends, tags);
  }

  /** The diff of two token lists: what the fold asks of one. */
  method DiffLists(lcs: Lcs, mix: Mix, seed: nat, nl: nat, a: seq<Token>, b: seq<Token>, ha: seq<nat>, hb: seq<nat>,
          cap: nat)
      returns (es: seq<Edit>)
    requires GoodLcs(lcs) && FoldTells(mix, seed, ha, hb) && Solid(a) && Solid(b) && a != [] && b != []
    requires HashesTell(Flat(a), Flat(b), ha, hb) && cap >= |ha| + |hb|
    ensures Valid(es, BytesOf(a), BytesOf(b)) && Normal(es)
    ensures var d := Draw(lcs, mix, seed, nl, false);
      && |Flat(a).ends| == |Flat(a).tags| && |Flat(b).ends| == |Flat(b).tags|
      && (Refined(d, Flat(a), Flat(b), ha, hb, es) || Wholesale(d, ha, hb, es))
  {
    hide GoodLcs, FoldTells, HashesTell, Normal, Flat, Texts, ToksOk, Refined, Wholesale;
    FlatCuts(a);
    FlatCuts(b);
    FlatTexts(Flat(a), a);
    FlatTexts(Flat(b), b);
    TellsLength(a, b, ha, hb);
    var fa := Collect(a);
    var fb := Collect(b);
    es := DiffTokens(lcs, mix, seed, nl, fa, fb, ha, hb, cap);
  }

  lemma TellsLength(a: seq<Token>, b: seq<Token>, ha: seq<nat>, hb: seq<nat>)
    requires HashesTell(Flat(a), Flat(b), ha, hb) && FlatOf(Flat(a), a) && FlatOf(Flat(b), b)
    ensures |ha| == |a| && |hb| == |b|
  {
    hide Flat, ToksOk;
  }

  /** The diff answers every two lists of tokens as the token diff promises to. */
  ghost predicate Promised(diff: Diff) {
    forall a: seq<Token>, b: seq<Token> | a != [] && b != [] && Solid(a) && Solid(b) ::
      Valid(diff(a, b), Texts(Flat(a)), Texts(Flat(b)))
  }

  /** Such a diff is one every result about the weave is proved for. */
  lemma PromisedIsGood(diff: Diff)
    ensures Promised(diff) <==> GoodDiff(diff)
  {
    hide Flat, Texts, FlatOf, Valid, BytesOf;
    forall a: seq<Token> | Solid(a)
      ensures Texts(Flat(a)) == BytesOf(a)
    {
      FlatCuts(a);
      FlatTexts(Flat(a), a);
    }
  }
}

/** What becomes of a reference to a missing rule when a pass mints a rule of that name. */
module Capture {
  import opened Ir
  import opened Languages

  /** Every rule of `g` derives in `r` exactly what it did. */
  ghost predicate KeptWords(g: Grammar, r: Grammar) {
    forall n :: n in NameSet(g) ==> At(Language(r), n) == At(Language(g), n)
  }

  /** No rule of `r` bears the name of a rule that some reference of `g` misses. */
  ghost predicate NoneTaken(g: Grammar, r: Grammar) {
    Dangling(g) !! NameSet(r)
  }

  /** Every name `g` defines or refers to means in `r` what it meant. */
  ghost predicate Meanings(g: Grammar, r: Grammar) {
    forall n :: n in NameSet(g) + Dangling(g) ==> At(Language(r), n) == At(Language(g), n)
  }

  /** Every rule that `g` did not have derives some word. */
  ghost predicate NewRulesDerive(g: Grammar, r: Grammar) {
    forall k :: 0 <= k < |r| && r[k].name !in NameSet(g) ==> At(Language(r), r[k].name) != iset{}
  }

  lemma NoRule(g: Grammar, n: string, w: Word)
    requires n !in NameSet(g)
    ensures (n, w) !in Language(g)
  {
    LanguageFixed(g);
    forall i ensures !ProducedBy(n, w, g, i, Language(g)) {
      assert 0 <= i < |g| ==> g[i].name in NameSet(g);
    }
  }

  lemma DerivesNothing(g: Grammar, n: string)
    requires n !in NameSet(g)
    ensures At(Language(g), n) == iset{}
  {
    forall w ensures (n, w) !in Language(g) {
      NoRule(g, n, w);
    }
  }

  /** A reference to a missing rule derives nothing; once a rule has taken its name,
      exactly what that rule does. */
  lemma TakenMeans(g: Grammar, r: Grammar, n: string, k: nat)
    requires DistinctNames(r) && n in Dangling(g) && k < |r| && r[k].name == n
    ensures At(Language(g), n) == iset{} && At(Language(r), n) == AltsLang(r[k].alts, Language(r))
    ensures [] in r[k].alts ==> [] in At(Language(r), n)
  {
    DerivesNothing(g, n);
    RuleLanguage(r, k);
    if [] in r[k].alts {
      var i :| 0 <= i < |r[k].alts| && r[k].alts[i] == [];
      AltsIntro(i, [], r[k].alts, Language(r));
    }
  }

  /** For a pass that keeps the words of every rule as long as no name is taken: then
      every name keeps its meaning, the dangling ones their lack of one; and where the
      new rules derive something, only then. */
  lemma MeaningsExactly(g: Grammar, r: Grammar)
    requires DistinctNames(r) && (NoneTaken(g, r) ==> KeptWords(g, r))
    ensures NoneTaken(g, r) ==> Meanings(g, r)
    ensures NewRulesDerive(g, r) ==> (NoneTaken(g, r) <==> Meanings(g, r))
  {
    if NoneTaken(g, r) {
      forall n | n in NameSet(g) + Dangling(g) ensures At(Language(r), n) == At(Language(g), n) {
        if n !in NameSet(g) {
          DerivesNothing(g, n);
          DerivesNothing(r, n);
        }
      }
    } else {
      var n :| n in Dangling(g) && n in NameSet(r);
      var k :| 0 <= k < |r| && r[k].name == n;
      TakenMeans(g, r, n, k);
    }
  }
}

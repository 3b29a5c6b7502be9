/** What evolution does to genes, and who survives it. */
module EvolutionLaws {
  // The dice of one gene or one birth against what comes of them, and the size of the elite against the fraction asked
  // for.

  import opened SelfEvolution

  // ---------- genes ----------

  /** `y` is what is left of `x` within the bounds: `x` itself if it is inside, and the bound it went beyond if not. */
  predicate Bounded(low: real, high: real, x: real, y: real) {
    && (low <= x <= high ==> y == x)
    && (x < low ==> y == low)
    && (high < x ==> y == high)
  }

  /** A number moves by the noise and a whole number by the shift, as far as their bounds allow; a choice falls on one
      of the values; and a switch turns over. */
  lemma MutationMoves(spec: Spec, g: Gene, dice: Dice)
    requires Meaningful(spec) && Workable(spec, g)
    ensures var h := MutatedGene(spec, g, dice);
            match spec
            case FloatIn(min, max) => h.Number? && Bounded(min, max, g.r + dice.noise, h.r)
            case IntIn(lo, hi) => h.Whole? && Bounded(lo as real, hi as real, (g.n + dice.shift) as real, h.n as real)
            case OneOf(values) => h.Choice? && h.c in values
            case Toggle => h.Flag? && (h.b <==> g == Flag(false) || g == Null)
  {
  }

  /** Every value of a choice can come. */
  lemma AnyChoice(values: seq<string>, g: Gene, dice: Dice, i: nat)
    requires i < |values| && dice.pick == i
    ensures MutatedGene(OneOf(values), g, dice) == Choice(values[i])
  {
  }

  /** Numbers that a genome lacks count as 0.5 and 5, a switch as off, and a choice as none. */
  lemma MissingGenes(spec: Spec, dice: Dice)
    requires Meaningful(spec)
    ensures Workable(spec, Default(spec))
    ensures match spec
            case FloatIn(_, _) => Default(spec) == Number(0.5)
            case IntIn(_, _) => Default(spec) == Whole(5)
            case OneOf(_) => Default(spec) == Null
            case Toggle => Default(spec) == Flag(false)
  {
  }

  /** Crossing takes each gene of the schema from the parent the dice say, and nothing else. */
  lemma CrossingTakes(schema: Schema, a: Genome, b: Genome, dice: map<string, Dice>, p: string)
    requires Rolled(schema, dice)
    ensures p in Crossed(schema, a, b, dice) <==> p in schema
    ensures p in schema && dice[p].fromFirst && p in a ==> Crossed(schema, a, b, dice)[p] == a[p]
    ensures p in schema && !dice[p].fromFirst && p in b ==> Crossed(schema, a, b, dice)[p] == b[p]
    ensures p in schema && (if dice[p].fromFirst then p !in a else p !in b) ==>
              Crossed(schema, a, b, dice)[p] == Null
  {
  }

  /** The gene that a birth hands on before mutation: of the first parent unless the parents cross, and then of the one
      whom the dice for crossing say. */
  function Handed(a: Strategy, b: Strategy, birth: Birth, p: string): Gene
    requires p in a.genome && p in b.genome && (birth.crosses ==> p in birth.crossDice)
  {
    if !birth.crosses then a.genome[p]
    else if birth.crossDice[p].fromFirst then a.genome[p]
    else b.genome[p]
  }

  /** A child has its own id and fitness and its parents' ids, the first parent first; and of each parameter the gene
      that was handed on, mutated where the dice for mutation say so. */
  lemma ChildTheorem(schema: Schema, population: seq<Strategy>, birth: Birth, s: Strategy, p: string)
    requires SchemaOk(schema) && AllInSchema(schema, population) && IsChild(schema, population, birth, s)
    requires p in schema
    ensures var a, b := population[birth.a], population[birth.b];
            && s.id == birth.id && s.fitness == birth.fitness && s.parents == [a.id, b.id]
            && p in a.genome && p in b.genome && p in s.genome
            && (!birth.mutDice[p].mutates ==> s.genome[p] == Handed(a, b, birth, p))
            && (birth.mutDice[p].mutates ==>
                  && Workable(schema[p], Handed(a, b, birth, p))
                  && s.genome[p] == MutatedGene(schema[p], Handed(a, b, birth, p), birth.mutDice[p]))
  {
    hide Meaningful, MutatedGene, Allows;
    var a, b := population[birth.a].genome, population[birth.b].genome;
    var g := if birth.crosses then Crossed(schema, a, b, birth.crossDice) else a;
    assert InSchema(schema, a) && InSchema(schema, b);
    InSchemaWorks(schema, g);
    assert Workable(schema[p], g[p]);
  }

  // ---------- who survives ----------

  /** The elite is the fraction asked for, rounded down, but at least one and at most all. */
  lemma EliteTheorem(n: nat, elitePct: real)
    requires 0 < n
    ensures var k, share := EliteCount(n, elitePct), n as real * elitePct;
            && 1 <= k <= n
            && (k as real <= share || k == 1)
            && (share < k as real + 1.0 || k == n)
  {
  }

  /** Children fill the population, and none come where the elite does. */
  lemma PlacesTheorem(n: nat, populationSize: int, elitePct: real)
    ensures var k, places := EliteCount(n, elitePct), Places(n, populationSize, elitePct);
            && (k < populationSize ==> k + places == populationSize)
            && (populationSize <= k ==> places == 0)
    ensures EliteCount(0, elitePct) == 0
  {
  }

  /** The famous are the members whose fitness is above a half, in the order in which they stand: of one member it is
      itself or nobody, and of two populations in a row it is those of the one and then those of the other. */
  lemma {:induction false} FamousTheorem(pop: seq<Strategy>, more: seq<Strategy>)
    ensures Famous(pop + more) == Famous(pop) + Famous(more)
    decreases |more|
  {
    if more == [] {
      assert pop + more == pop;
    } else {
      var n := |more| - 1;
      FamousTheorem(pop, more[..n]);
      assert (pop + more)[..|pop| + n] == pop + more[..n];
    }
  }

  lemma FamousAlone(pop: seq<Strategy>)
    requires |pop| == 1
    ensures Famous(pop) == if pop[0].fitness > 0.5 then pop else []
  {
    var none := pop[..0];
    assert Famous(none) == [];
  }
}

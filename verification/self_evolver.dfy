/** Strategy evolution in evolution/self_evolver.py. */
module SelfEvolution {
  // Genomes are kept inside a schema, the fittest survive, and the hall of fame is maintained generation by
  // generation. Random draws and the outcome of a backtest are parameters. Tournament selection can name any member
  // of the population as a parent, so a parent is an arbitrary index here.

  import opened StableSorting

  /** `Null` is Python's None, which crossover writes where a parent has no such parameter. */
  datatype Gene = Number(r: real) | Whole(n: int) | Choice(c: string) | Flag(b: bool) | Null

  datatype Spec =
    | FloatIn(min: real, max: real)
    | IntIn(lo: int, hi: int)
    | OneOf(values: seq<string>)
    | Toggle

  type Schema = map<string, Spec>

  type Genome = map<string, Gene>

  datatype Strategy = Strategy(id: nat, genome: Genome, fitness: real, parents: seq<nat>)

  /** The dice of one parameter: whether it mutates and what it then draws, and which parent it comes from. */
  datatype Dice = Dice(mutates: bool, noise: real, shift: int, pick: nat, fromFirst: bool)

  // ---------- genomes ----------

  predicate Allows(spec: Spec, g: Gene) {
    match spec
    case FloatIn(min, max) => g.Number? && min <= g.r <= max
    case IntIn(lo, hi) => g.Whole? && lo <= g.n <= hi
    case OneOf(values) => g.Choice? && g.c in values
    case Toggle => g.Flag?
  }

  /** A specification that some gene meets. */
  predicate Meaningful(spec: Spec) {
    match spec
    case FloatIn(min, max) => min <= max
    case IntIn(lo, hi) => lo <= hi
    case OneOf(values) => values != []
    case Toggle => true
  }

  ghost predicate SchemaOk(schema: Schema) {
    forall p :: p in schema ==> Meaningful(schema[p])
  }

  /** Every parameter of the schema has a gene in its range. */
  ghost predicate InSchema(schema: Schema, genome: Genome) {
    forall p :: p in schema ==> p in genome && Allows(schema[p], genome[p])
  }

  function ClampReal(min: real, max: real, x: real): real {
    var y := if x < max then x else max;
    if y > min then y else min
  }

  function ClampInt(lo: int, hi: int, x: int): int {
    var y := if x < hi then x else hi;
    if y > lo then y else lo
  }

  /** What the parameter counts as while the genome does not have it. */
  function Default(spec: Spec): Gene {
    match spec
    case FloatIn(_, _) => Number(0.5)
    case IntIn(_, _) => Whole(5)
    case OneOf(_) => Null
    case Toggle => Flag(false)
  }

  function GeneOr(genome: Genome, p: string, default: Gene): Gene {
    if p in genome then genome[p] else default
  }

  /** Arithmetic works on the gene, in range or not. */
  predicate Workable(spec: Spec, g: Gene) {
    match spec
    case FloatIn(_, _) => g.Number?
    case IntIn(_, _) => g.Whole?
    case OneOf(_) => true
    case Toggle => g.Flag? || g.Null?
  }

  function MutatedGene(spec: Spec, g: Gene, dice: Dice): Gene
    requires Meaningful(spec) && Workable(spec, g)
  {
    match spec
    case FloatIn(min, max) => Number(ClampReal(min, max, g.r + dice.noise))
    case IntIn(lo, hi) => Whole(ClampInt(lo, hi, g.n + dice.shift))
    case OneOf(values) => Choice(values[dice.pick % |values|])
    case Toggle => Flag(!(g.Flag? && g.b))
  }

  /** One draw of dice for each parameter. */
  predicate Rolled(schema: Schema, dice: map<string, Dice>) {
    forall p :: p in schema ==> p in dice
  }

  /** Whatever a gene was, and wherever it came from, mutation puts it into its range. */
  lemma MutationStaysAllowed(spec: Spec, g: Gene, dice: Dice)
    requires Meaningful(spec) && Workable(spec, g)
    ensures Allows(spec, MutatedGene(spec, g, dice))
  {
  }

  ghost predicate AllWorkable(schema: Schema, genome: Genome) {
    forall p :: p in schema ==> Workable(schema[p], GeneOr(genome, p, Default(schema[p])))
  }

  lemma InSchemaWorks(schema: Schema, genome: Genome)
    requires InSchema(schema, genome)
    ensures AllWorkable(schema, genome)
  {
  }

  /** The genome after mutation: what the schema does not know, or the dice spare, stays. */
  ghost function Mutated(schema: Schema, genome: Genome, dice: map<string, Dice>): Genome
    requires SchemaOk(schema) && AllWorkable(schema, genome) && Rolled(schema, dice)
  {
    map p | p in genome.Keys + schema.Keys && (p in genome || dice[p].mutates) ::
      if p in schema && dice[p].mutates then MutatedGene(schema[p], GeneOr(genome, p, Default(schema[p])), dice[p])
      else genome[p]
  }

  /** Mutation puts back into the schema what it touches, and so keeps what was inside. */
  lemma MutatedInSchema(schema: Schema, genome: Genome, dice: map<string, Dice>)
    requires SchemaOk(schema) && InSchema(schema, genome) && AllWorkable(schema, genome) && Rolled(schema, dice)
    ensures InSchema(schema, Mutated(schema, genome, dice))
  {
    hide Meaningful, MutatedGene, Allows, Workable;
    forall p | p in schema
      ensures p in Mutated(schema, genome, dice) && Allows(schema[p], Mutated(schema, genome, dice)[p])
    {
      assert Workable(schema[p], GeneOr(genome, p, Default(schema[p])));
      MutationStaysAllowed(schema[p], genome[p], dice[p]);
    }
  }

  /** The child of two genomes: every parameter of the schema from one of them. */
  function Crossed(schema: Schema, a: Genome, b: Genome, dice: map<string, Dice>): (r: Genome)
    requires Rolled(schema, dice)
    ensures InSchema(schema, a) && InSchema(schema, b) ==> InSchema(schema, r)
  {
    map p | p in schema :: GeneOr(if dice[p].fromFirst then a else b, p, Null)
  }

  /** The genome once all parameters but `todo` have had their turn. */
  ghost predicate Partly(schema: Schema, genome: Genome, dice: map<string, Dice>, todo: set<string>, g: Genome)
    requires SchemaOk(schema) && AllWorkable(schema, genome) && Rolled(schema, dice)
  {
    && (forall p :: p in g <==> p in genome || (p in schema && p !in todo && dice[p].mutates))
    && forall p :: p in g ==>
         g[p] == if p in schema && p !in todo && dice[p].mutates
                 then MutatedGene(schema[p], GeneOr(genome, p, Default(schema[p])), dice[p]) else genome[p]
  }

  lemma PartlyNext(schema: Schema, genome: Genome, dice: map<string, Dice>, todo: set<string>, g: Genome, p: string)
    requires SchemaOk(schema) && AllWorkable(schema, genome) && Rolled(schema, dice)
    requires Partly(schema, genome, dice, todo, g) && p in todo && p in schema
    ensures GeneOr(g, p, Default(schema[p])) == GeneOr(genome, p, Default(schema[p]))
    ensures Workable(schema[p], GeneOr(g, p, Default(schema[p])))
    ensures
      var next := if dice[p].mutates then g[p := MutatedGene(schema[p], GeneOr(g, p, Default(schema[p])), dice[p])]
                  else g;
      Partly(schema, genome, dice, todo - {p}, next)
  {
    hide Workable, Meaningful, MutatedGene, Default;
    assert Workable(schema[p], GeneOr(genome, p, Default(schema[p])));
  }

  lemma PartlyEnds(schema: Schema, genome: Genome, dice: map<string, Dice>, g: Genome)
    requires SchemaOk(schema) && AllWorkable(schema, genome) && Rolled(schema, dice)
    ensures Partly(schema, genome, dice, schema.Keys, genome)
    ensures Partly(schema, genome, dice, {}, g) ==> g == Mutated(schema, genome, dice)
  {
    hide Workable, Meaningful, MutatedGene, Default;
  }

  method MutateGenome(schema: Schema, genome: Genome, dice: map<string, Dice>) returns (mutated: Genome)
    requires SchemaOk(schema) && AllWorkable(schema, genome) && Rolled(schema, dice)
    ensures mutated == Mutated(schema, genome, dice)
    ensures InSchema(schema, genome) ==> InSchema(schema, mutated)
  {
    hide Workable, MutatedGene, Default, Allows, Partly, GeneOr;
    mutated := genome;
    var todo := schema.Keys;
    PartlyEnds(schema, genome, dice, genome);
    while todo != {}
      invariant todo <= schema.Keys && Partly(schema, genome, dice, todo, mutated)
      decreases |todo|
    {
      var p :| p in todo;
      PartlyNext(schema, genome, dice, todo, mutated, p);
      todo := todo - {p};
      if dice[p].mutates {
        mutated := mutated[p := MutatedGene(schema[p], GeneOr(mutated, p, Default(schema[p])), dice[p])];
      }
    }
    PartlyEnds(schema, genome, dice, mutated);
    if InSchema(schema, genome) {
      MutatedInSchema(schema, genome, dice);
    }
  }

  method Crossover(schema: Schema, a: Genome, b: Genome, dice: map<string, Dice>) returns (child: Genome)
    requires Rolled(schema, dice)
    ensures child == Crossed(schema, a, b, dice)
    ensures InSchema(schema, a) && InSchema(schema, b) ==> InSchema(schema, child)
  {
    child := map[];
    var todo := schema.Keys;
    while todo != {}
      invariant todo <= schema.Keys && child.Keys == schema.Keys - todo
      invariant forall p :: p in child ==> child[p] == GeneOr(if dice[p].fromFirst then a else b, p, Null)
      decreases |todo|
    {
      var p :| p in todo;
      todo := todo - {p};
      child := child[p := GeneOr(if dice[p].fromFirst then a else b, p, Null)];
    }
    assert child == Crossed(schema, a, b, dice);
  }

  // ---------- ranking ----------

  function Ranked(s: Strategy): Item<Strategy> { Item(-s.fitness, s) }

  function AsItems(pop: seq<Strategy>): (r: seq<Item<Strategy>>)
    ensures |r| == |pop| && forall i :: 0 <= i < |r| ==> r[i] == Ranked(pop[i])
  {
    seq(|pop|, i requires 0 <= i < |pop| => Ranked(pop[i]))
  }

  function Members(items: seq<Item<Strategy>>): (r: seq<Strategy>)
    ensures |r| == |items| && forall i :: 0 <= i < |r| ==> r[i] == items[i].value
  {
    seq(|items|, i requires 0 <= i < |items| => items[i].value)
  }

  /** `sort(key=fitness, reverse=True)`: fittest first, equals in their old order. */
  function ByFitness(pop: seq<Strategy>): (r: seq<Strategy>)
    ensures |r| == |pop|
  {
    Members(Sort(AsItems(pop)))
  }

  const HALL_SIZE: nat := 20

  function Top<T>(s: seq<T>): seq<T> { Take(s, HALL_SIZE) }

  /** The members good enough for the hall of fame. */
  function Famous(pop: seq<Strategy>): seq<Strategy>
    decreases |pop|
  {
    if pop == [] then []
    else Famous(pop[..|pop| - 1]) + if pop[|pop| - 1].fitness > 0.5 then [pop[|pop| - 1]] else []
  }

  // ---------- one generation ----------

  /** What makes one child: two parents, whether they cross, the dice, and the fitness its backtest yields. */
  datatype Birth = Birth(a: nat, b: nat, crosses: bool, crossDice: map<string, Dice>, mutDice: map<string, Dice>,
                         id: nat, fitness: real)

  ghost predicate Born(schema: Schema, population: seq<Strategy>, birth: Birth) {
    && birth.a < |population| && birth.b < |population|
    && Rolled(schema, birth.crossDice) && Rolled(schema, birth.mutDice)
  }

  /** The genome a birth leads to: crossed if the draw says so, and mutated in any case. */
  ghost function ChildGenome(schema: Schema, population: seq<Strategy>, birth: Birth): (r: Genome)
    requires SchemaOk(schema) && AllInSchema(schema, population) && Born(schema, population, birth)
    ensures InSchema(schema, r)
  {
    var a, b := population[birth.a].genome, population[birth.b].genome;
    var g := if birth.crosses then Crossed(schema, a, b, birth.crossDice) else a;
    InSchemaWorks(schema, g);
    MutatedInSchema(schema, g, birth.mutDice);
    Mutated(schema, g, birth.mutDice)
  }

  /** The member a birth adds to the population. */
  ghost predicate IsChild(schema: Schema, population: seq<Strategy>, birth: Birth, s: Strategy)
    requires SchemaOk(schema) && AllInSchema(schema, population)
  {
    && Born(schema, population, birth)
    && s == Strategy(birth.id, ChildGenome(schema, population, birth), birth.fitness,
                     [population[birth.a].id, population[birth.b].id])
  }

  datatype Result = Evolved(population: seq<Strategy>) | NobodyToSelect

  ghost predicate AllInSchema(schema: Schema, pop: seq<Strategy>) {
    forall i :: 0 <= i < |pop| ==> InSchema(schema, pop[i].genome)
  }

  /** How many of `n` survive: `max(1, int(n * pct))`, but no more than there are. */
  function EliteCount(n: nat, elitePct: real): nat {
    var e := (n as real * elitePct).Floor;
    if e > n then n else if e >= 1 then e else if n == 0 then 0 else 1
  }

  /** The places that are left for children. */
  function Places(n: nat, populationSize: int, elitePct: real): nat {
    if populationSize > EliteCount(n, elitePct) then populationSize - EliteCount(n, elitePct) else 0
  }

  /** The elite, then the children. */
  ghost predicate IsNextGeneration(schema: Schema, elitePct: real, sorted: seq<Strategy>, births: seq<Birth>,
                                   newPop: seq<Strategy>)
    requires SchemaOk(schema)
  {
    var n := EliteCount(|sorted|, elitePct);
    && AllInSchema(schema, sorted)
    && |newPop| == n + |births| && newPop[..n] == sorted[..n]
    && forall i :: 0 <= i < |births| ==> IsChild(schema, sorted, births[i], newPop[n + i])
  }

  /** What one call may make of a population. */
  ghost predicate Succeeds(schema: Schema, populationSize: int, elitePct: real, pop: seq<Strategy>, next: seq<Strategy>)
    requires SchemaOk(schema)
  {
    pop != [] && exists births ::
      |births| == Places(|pop|, populationSize, elitePct)
      && IsNextGeneration(schema, elitePct, ByFitness(pop), births, next)
  }

  class SelfEvolver {
    const schema: Schema
    const populationSize: int
    const elitePct: real
    var hallOfFame: seq<Strategy>
    var generation: nat

    constructor (schema: Schema, populationSize: int, elitePct: real)
      ensures hallOfFame == [] && generation == 0
      ensures this.schema == schema && this.populationSize == populationSize && this.elitePct == elitePct
    {
      this.schema, this.populationSize, this.elitePct := schema, populationSize, elitePct;
      hallOfFame, generation := [], 0;
    }

    /** One child for each place left, in the order in which they are born. */
    method Offspring(sorted: seq<Strategy>, elite: seq<Strategy>, births: seq<Birth>) returns (newPop: seq<Strategy>)
      requires SchemaOk(schema) && AllInSchema(schema, sorted) && AllInSchema(schema, elite)
      requires forall i :: 0 <= i < |births| ==> Born(schema, sorted, births[i])
      ensures |newPop| == |elite| + |births| && elite <= newPop && AllInSchema(schema, newPop)
      ensures forall i :: 0 <= i < |births| ==> IsChild(schema, sorted, births[i], newPop[|elite| + i])
    {
      newPop := elite;
      var i := 0;
      while i < |births|
        invariant i <= |births| && |newPop| == |elite| + i && elite <= newPop && AllInSchema(schema, newPop)
        invariant forall k :: 0 <= k < i ==> IsChild(schema, sorted, births[k], newPop[|elite| + k])
      {
        var birth := births[i];
        assert Born(schema, sorted, birth);
        var a, b := sorted[birth.a], sorted[birth.b];
        var genome := a.genome;
        if birth.crosses {
          genome := Crossover(schema, a.genome, b.genome, birth.crossDice);
        }
        InSchemaWorks(schema, genome);
        genome := MutateGenome(schema, genome, birth.mutDice);
        newPop := newPop + [Strategy(birth.id, genome, birth.fitness, [a.id, b.id])];
        i := i + 1;
      }
    }

    method UpdateHallOfFame(newPop: seq<Strategy>)
      modifies this`hallOfFame
      ensures hallOfFame == Top(ByFitness(old(hallOfFame) + Famous(newPop)))
    {
      var i := 0;
      while i < |newPop|
        invariant i <= |newPop| && hallOfFame == old(hallOfFame) + Famous(newPop[..i])
      {
        assert newPop[..i + 1][..i] == newPop[..i];
        if newPop[i].fitness > 0.5 {
          hallOfFame := hallOfFame + [newPop[i]];
        }
        i := i + 1;
      }
      assert newPop[..|newPop|] == newPop;
      hallOfFame := ByFitness(hallOfFame);
      hallOfFame := Top(hallOfFame);
    }

    /** `evolve_generation`. `births` holds one entry for every child the population still needs. */
    method EvolveGeneration(population: seq<Strategy>, births: seq<Birth>) returns (r: Result)
      requires SchemaOk(schema) && AllInSchema(schema, population)
      requires forall i :: 0 <= i < |births| ==> Born(schema, ByFitness(population), births[i])
      requires |births| == if population == [] then 0 else Places(|population|, populationSize, elitePct)
      modifies this
      ensures generation == old(generation) + 1
      ensures r.NobodyToSelect? <==> population == [] && 0 < populationSize
      ensures r.NobodyToSelect? ==> hallOfFame == old(hallOfFame)
      ensures r.Evolved? ==> hallOfFame == Top(ByFitness(old(hallOfFame) + Famous(r.population)))
      ensures r.Evolved? && population == [] ==> r.population == []
      ensures r.Evolved? && population != [] ==>
                && IsNextGeneration(schema, elitePct, ByFitness(population), births, r.population)
                && Succeeds(schema, populationSize, elitePct, population, r.population)
    {
      hide Sort, Famous, InSchema, Meaningful, EliteCount;
      generation := generation + 1;
      var sorted := ByFitness(population);
      ByFitnessMembers(population);
      if population == [] && 0 < populationSize {
        return NobodyToSelect;
      }
      var nElite := EliteCount(|sorted|, elitePct);
      EliteFits(|sorted|, elitePct);
      var elite := sorted[..nElite];
      var newPop := Offspring(sorted, elite, births);
      UpdateHallOfFame(newPop);
      return Evolved(newPop);
    }
  }

  lemma EliteFits(n: nat, elitePct: real)
    ensures EliteCount(n, elitePct) <= n && (n > 0 ==> EliteCount(n, elitePct) >= 1)
  {
  }

  /** Sorting loses and invents nobody, and puts somebody fittest in front. */
  lemma ByFitnessMembers(pop: seq<Strategy>)
    ensures forall i :: 0 <= i < |pop| ==> ByFitness(pop)[i] in pop
    ensures forall i :: 0 <= i < |pop| ==> pop[i].fitness <= ByFitness(pop)[0].fitness
    ensures multiset(ByFitness(pop)) == multiset(pop)
  {
    hide Sort;
    var items := AsItems(pop);
    SortIsStable(items);
    SortItems(items);
    SortMembers(items);
    assert Members(items) == pop;
    forall i | 0 <= i < |pop|
      ensures ByFitness(pop)[i] in pop && pop[i].fitness <= ByFitness(pop)[0].fitness
    {
      assert ByFitness(pop)[i] in multiset(ByFitness(pop));
      assert items[i] in multiset(items);
      var k :| 0 <= k < |pop| && Sort(items)[k] == items[i];
      assert Sort(items)[0] in multiset(items);
      var z :| 0 <= z < |pop| && items[z] == Sort(items)[0];
    }
  }

  lemma MembersAppend(a: seq<Item<Strategy>>, x: Item<Strategy>)
    ensures Members(a + [x]) == Members(a) + [x.value]
  {
  }

  lemma {:induction false} InsertMembers(s: seq<Item<Strategy>>, x: Item<Strategy>)
    ensures multiset(Members(Insert(s, x))) == multiset(Members(s)) + multiset{x.value}
  {
    hide Members;
    if s == [] || s[|s| - 1].key <= x.key {
      MembersAppend(s, x);
    } else {
      var n := |s| - 1;
      InsertMembers(s[..n], x);
      MembersAppend(Insert(s[..n], x), s[n]);
      MembersAppend(s[..n], s[n]);
      assert s == s[..n] + [s[n]];
    }
  }

  lemma {:induction false} SortMembers(s: seq<Item<Strategy>>)
    ensures multiset(Members(Sort(s))) == multiset(Members(s))
  {
    hide Members;
    if s != [] {
      var n := |s| - 1;
      SortMembers(s[..n]);
      InsertMembers(Sort(s[..n]), s[n]);
      MembersAppend(s[..n], s[n]);
      assert s == s[..n] + [s[n]];
    }
  }

  // ---------- the hall of fame over many generations ----------

  /** The hall of fame after a series of generations, kept as `UpdateHallOfFame` keeps it. */
  function HallAfter(gens: seq<seq<Strategy>>): seq<Strategy>
    decreases |gens|
  {
    if gens == [] then []
    else Top(ByFitness(HallAfter(gens[..|gens| - 1]) + Famous(gens[|gens| - 1])))
  }

  /** Every member ever good enough, in order of appearance. */
  function EverFamous(gens: seq<seq<Strategy>>): seq<Strategy>
    decreases |gens|
  {
    if gens == [] then [] else EverFamous(gens[..|gens| - 1]) + Famous(gens[|gens| - 1])
  }

  lemma AsItemsConcat(a: seq<Strategy>, b: seq<Strategy>)
    ensures AsItems(a + b) == AsItems(a) + AsItems(b)
  {
    hide Ranked;
  }

  lemma TopMembers(items: seq<Item<Strategy>>)
    ensures Top(Members(items)) == Members(Top(items))
  {
  }

  /** Ranking the members of ranked items gives the items back. */
  lemma AsItemsOfTop(pop: seq<Strategy>)
    ensures AsItems(Top(ByFitness(pop))) == Top(Sort(AsItems(pop)))
  {
    hide Sort;
    var items := AsItems(pop);
    SortItems(items);
    forall i | 0 <= i < |pop| ensures Ranked(Sort(items)[i].value) == Sort(items)[i] {
      assert Sort(items)[i] in multiset(items);
      var k :| 0 <= k < |items| && items[k] == Sort(items)[i];
    }
  }

  /** However the generations fall, the hall of fame is the first twenty of everybody good enough who ever appeared,
      fittest first and equals in order of appearance. */
  lemma {:induction false} StreamingIsBatch(gens: seq<seq<Strategy>>)
    ensures HallAfter(gens) == Top(ByFitness(EverFamous(gens)))
    decreases |gens|
  {
    hide Sort, AsItems, Members, Famous, Top;
    if gens == [] {
      NobodyRanked(EverFamous(gens));
    } else {
      var n := |gens| - 1;
      var before, last := EverFamous(gens[..n]), Famous(gens[n]);
      StreamingIsBatch(gens[..n]);
      AsItemsOfTop(before);
      AsItemsConcat(Top(ByFitness(before)), last);
      AsItemsConcat(before, last);
      TopOfTop(AsItems(before), AsItems(last));
      TopMembers(Sort(AsItems(HallAfter(gens[..n]) + last)));
      TopMembers(Sort(AsItems(before + last)));
    }
  }

  lemma TopOfTop(a: seq<Item<Strategy>>, b: seq<Item<Strategy>>)
    ensures Top(Sort(Top(Sort(a)) + b)) == Top(Sort(a + b))
  {
    hide Sort;
    TakeSort(a, b, HALL_SIZE);
  }

  lemma NobodyRanked(pop: seq<Strategy>)
    requires pop == []
    ensures Top(ByFitness(pop)) == []
  {
    hide Sort;
  }

  // ---------- evolution over many generations ----------

  /** Every population is what one call makes of the one before. */
  ghost predicate Lineage(schema: Schema, populationSize: int, elitePct: real, gens: seq<seq<Strategy>>)
    requires SchemaOk(schema)
  {
    && gens != [] && gens[0] != [] && AllInSchema(schema, gens[0])
    && forall i :: 0 <= i < |gens| - 1 ==> Succeeds(schema, populationSize, elitePct, gens[i], gens[i + 1])
  }

  function Best(pop: seq<Strategy>): real
    requires pop != []
  {
    ByFitness(pop)[0].fitness
  }

  /** One call keeps the champion, everybody inside the schema, and fills the population. */
  lemma NextGeneration(schema: Schema, populationSize: int, elitePct: real, pop: seq<Strategy>, next: seq<Strategy>)
    requires SchemaOk(schema) && Succeeds(schema, populationSize, elitePct, pop, next)
    ensures next != [] && AllInSchema(schema, next) && |next| >= populationSize
    ensures next[0] == ByFitness(pop)[0] && Best(pop) <= Best(next)
  {
    hide ByFitness, InSchema, EliteCount, ChildGenome, Meaningful;
    var sorted := ByFitness(pop);
    var births :| |births| == Places(|pop|, populationSize, elitePct)
                  && IsNextGeneration(schema, elitePct, sorted, births, next);
    var n := EliteCount(|pop|, elitePct);
    EliteFits(|pop|, elitePct);
    assert next[0] == next[..n][0] == sorted[0];
    ByFitnessMembers(next);
    forall i | 0 <= i < |next| ensures InSchema(schema, next[i].genome) {
      if i < n {
        assert next[i] == next[..n][i] == sorted[i];
      } else {
        assert IsChild(schema, sorted, births[i - n], next[n + (i - n)]);
      }
    }
  }

  /** Feeding each result to the next call, the best fitness never falls and every genome stays inside the schema. */
  lemma {:induction false} BestNeverFalls(schema: Schema, populationSize: int, elitePct: real, gens: seq<seq<Strategy>>,
                                          i: nat, j: nat)
    requires SchemaOk(schema) && Lineage(schema, populationSize, elitePct, gens) && i <= j < |gens|
    ensures gens[i] != [] && gens[j] != [] && Best(gens[i]) <= Best(gens[j]) && AllInSchema(schema, gens[j])
    decreases j
  {
    hide Succeeds, Best, AllInSchema;
    if i < j {
      BestNeverFalls(schema, populationSize, elitePct, gens, i, j - 1);
      NextGeneration(schema, populationSize, elitePct, gens[j - 1], gens[j]);
    } else if j > 0 {
      BestNeverFalls(schema, populationSize, elitePct, gens, j - 1, j - 1);
      NextGeneration(schema, populationSize, elitePct, gens[j - 1], gens[j]);
    }
  }

  /** The hall of fame of an evolver, fresh at first, after each call. */
  ghost predicate Halls(gens: seq<seq<Strategy>>, halls: seq<seq<Strategy>>) {
    && |halls| == |gens| && (halls != [] ==> halls[0] == [])
    && forall i :: 0 <= i < |halls| - 1 ==> halls[i + 1] == Top(ByFitness(halls[i] + Famous(gens[i + 1])))
  }

  /** After every call the hall of fame is the first twenty of all good enough members of all populations returned. */
  lemma {:induction false} HallTheorem(gens: seq<seq<Strategy>>, halls: seq<seq<Strategy>>, i: nat)
    requires Halls(gens, halls) && i < |gens|
    ensures halls[i] == HallAfter(gens[1..i + 1]) == Top(ByFitness(EverFamous(gens[1..i + 1])))
    decreases i
  {
    hide Top, ByFitness, Famous, EverFamous;
    var past := gens[1..i + 1];
    StreamingIsBatch(past);
    if i > 0 {
      HallTheorem(gens, halls, i - 1);
      assert past[..|past| - 1] == gens[1..i] && past[|past| - 1] == gens[i];
    }
  }

  // ---------- one champion takes every place ----------

  /** Every generation brings back the champion, and nobody good enough is its equal. */
  ghost predicate Reigns(champion: Strategy, gens: seq<seq<Strategy>>) {
    && champion.fitness > 0.5
    && (forall g :: 0 <= g < |gens| ==> champion in gens[g])
    && (forall g, i :: 0 <= g < |gens| && 0 <= i < |gens[g]| ==>
          gens[g][i] == champion || gens[g][i].fitness < champion.fitness)
  }

  /** Only the champion ranks as high as the champion. */
  ghost predicate Outranked(champion: Strategy, pop: seq<Strategy>) {
    forall i :: 0 <= i < |pop| ==> pop[i] == champion || pop[i].fitness < champion.fitness
  }

  function Copies(champion: Strategy, pop: seq<Strategy>): nat
    decreases |pop|
  {
    if pop == [] then 0
    else Copies(champion, pop[..|pop| - 1]) + if pop[|pop| - 1] == champion then 1 else 0
  }

  lemma {:induction false} CopiesConcat(champion: Strategy, a: seq<Strategy>, b: seq<Strategy>)
    ensures Copies(champion, a + b) == Copies(champion, a) + Copies(champion, b)
    decreases |b|
  {
    if b == [] {
      assert a + b == a;
    } else {
      var n := |b| - 1;
      assert a + b == (a + b[..n]) + [b[n]] && b == b[..n] + [b[n]];
      CopiesConcat(champion, a, b[..n]);
      hide Copies;
    }
  }

  lemma {:induction false} FamousChampion(champion: Strategy, pop: seq<Strategy>)
    requires champion.fitness > 0.5 && Outranked(champion, pop)
    ensures Outranked(champion, Famous(pop))
    ensures champion in pop ==> Copies(champion, Famous(pop)) >= 1
    decreases |pop|
  {
    if pop != [] {
      var init, last := pop[..|pop| - 1], pop[|pop| - 1];
      FamousChampion(champion, init);
      assert pop == init + [last];
      if last.fitness > 0.5 {
      } else {
        assert Famous(init) + [] == Famous(init);
      }
    }
  }

  lemma {:induction false} EverFamousChampion(champion: Strategy, gens: seq<seq<Strategy>>)
    requires Reigns(champion, gens)
    ensures Outranked(champion, EverFamous(gens)) && Copies(champion, EverFamous(gens)) >= |gens|
    decreases |gens|
  {
    if gens != [] {
      var n := |gens| - 1;
      EverFamousChampion(champion, gens[..n]);
      FamousChampion(champion, gens[n]);
      CopiesConcat(champion, EverFamous(gens[..n]), Famous(gens[n]));
      hide Famous, Copies;
    }
  }

  /** The items that rank with the champion are its copies. */
  lemma {:induction false} OnlyChampion(champion: Strategy, pop: seq<Strategy>)
    requires Outranked(champion, pop)
    ensures var only := Only(AsItems(pop), -champion.fitness);
            |only| == Copies(champion, pop) && forall i :: 0 <= i < |only| ==> only[i] == Ranked(champion)
    decreases |pop|
  {
    if pop != [] {
      var init, last := pop[..|pop| - 1], pop[|pop| - 1];
      OnlyChampion(champion, init);
      assert pop == init + [last];
      AsItemsConcat(init, [last]);
      assert AsItems([last]) == [Ranked(last)];
    }
  }

  /** Elitism brings an unrivalled member back in every generation. */
  lemma {:induction false} ElitismKeeps(schema: Schema, populationSize: int, elitePct: real, gens: seq<seq<Strategy>>,
                                        champion: Strategy, i: nat)
    requires SchemaOk(schema) && Lineage(schema, populationSize, elitePct, gens) && i < |gens|
    requires champion in gens[0] && forall g :: 0 <= g < |gens| ==> Outranked(champion, gens[g])
    ensures champion in gens[i]
    decreases i
  {
    hide Succeeds, AllInSchema;
    if i > 0 {
      var pop := gens[i - 1];
      ElitismKeeps(schema, populationSize, elitePct, gens, champion, i - 1);
      NextGeneration(schema, populationSize, elitePct, pop, gens[i]);
      ByFitnessMembers(pop);
      hide ByFitness;
      var k :| 0 <= k < |pop| && pop[k] == champion;
      var z :| 0 <= z < |pop| && pop[z] == ByFitness(pop)[0];
      assert Outranked(champion, pop);
    }
  }

  /** The hall of fame keeps no identities: a member above the threshold that nobody else matches is carried along by
      elitism, and after twenty calls it fills all twenty places. */
  lemma ChampionFillsHall(schema: Schema, populationSize: int, elitePct: real, gens: seq<seq<Strategy>>,
                          champion: Strategy)
    requires SchemaOk(schema) && Lineage(schema, populationSize, elitePct, gens) && |gens| > HALL_SIZE
    requires champion in gens[0] && champion.fitness > 0.5
    requires forall g :: 0 <= g < |gens| ==> Outranked(champion, gens[g])
    ensures |HallAfter(gens[1..])| == HALL_SIZE
    ensures forall i :: 0 <= i < HALL_SIZE ==> HallAfter(gens[1..])[i] == champion
  {
    hide Lineage, HallAfter;
    var later := gens[1..];
    forall g | 0 <= g < |later| ensures champion in later[g] && Outranked(champion, later[g]) {
      ElitismKeeps(schema, populationSize, elitePct, gens, champion, g + 1);
    }
    ReigningFillsHall(champion, later);
  }

  lemma ReigningFillsHall(champion: Strategy, gens: seq<seq<Strategy>>)
    requires Reigns(champion, gens) && |gens| >= HALL_SIZE
    ensures |HallAfter(gens)| == HALL_SIZE
    ensures forall i :: 0 <= i < HALL_SIZE ==> HallAfter(gens)[i] == champion
  {
    hide Sort, Only, Famous, Copies;
    var pop := EverFamous(gens);
    var items, key := AsItems(pop), -champion.fitness;
    StreamingIsBatch(gens);
    EverFamousChampion(champion, gens);
    OnlyChampion(champion, pop);
    SortIsStable(items);
    SortItems(items);
    forall i | 0 <= i < |Sort(items)| ensures key <= Sort(items)[i].key {
      assert Sort(items)[i] in multiset(items);
      var k :| 0 <= k < |items| && items[k] == Sort(items)[i];
    }
    LeastFirst(Sort(items), key);
    hide HallAfter, EverFamous;
    assert Only(Sort(items), key) <= Sort(items);
    forall i | 0 <= i < HALL_SIZE ensures i < |pop| && Sort(items)[i] == Ranked(champion) {
      assert Sort(items)[i] == Only(Sort(items), key)[i];
    }
  }

  // ---------- the schema ----------

  const SCHEMA: Schema := map[
    "entry_indicator" := OneOf(["rsi", "macd_cross", "bb_bounce", "ema_cross", "stochastic",
                                "cci", "williams_r", "momentum", "roc", "adx_trend"]),
    "entry_threshold" := FloatIn(0.1, 0.9),
    "entry_direction" := OneOf(["long", "short", "both"]),
    "exit_indicator" := OneOf(["trailing_stop", "fixed_target", "indicator_exit", "time_exit",
                               "volatility_exit", "momentum_exit"]),
    "exit_threshold" := FloatIn(0.01, 0.20),
    "stop_loss_method" := OneOf(["atr", "fixed", "trailing", "volatility"]),
    "stop_loss_param" := FloatIn(0.5, 5.0),
    "take_profit_ratio" := FloatIn(1.0, 5.0),
    "position_sizing" := OneOf(["kelly", "fixed", "atr", "volatility", "risk_parity"]),
    "max_position_pct" := FloatIn(0.01, 0.20),
    "primary_timeframe" := OneOf(["1m", "5m", "15m", "1h", "4h", "1d"]),
    "cooldown_bars" := IntIn(1, 20),
    "volume_filter" := Toggle,
    "trend_filter" := Toggle,
    "volatility_filter" := Toggle,
    "regime_filter" := Toggle,
    "fast_period" := IntIn(3, 30),
    "slow_period" := IntIn(10, 100),
    "signal_period" := IntIn(3, 20)]

  /** The shipped schema asks for nothing impossible. */
  lemma ShippedSchema()
    ensures SchemaOk(SCHEMA)
  {
  }
}

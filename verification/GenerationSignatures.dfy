/**
 * The four chained generation signatures of backend/generation_signatures.py: prompt, family, recipe and exact.
 * Each digest is taken over a document that contains the one before it.
 */
module GenerationSignatures {
  import opened Prelude

  // ---------------------------------------------------------------- splitting a prompt

  predicate IsSeparator(c: char) {
    c == ',' || c == '\n' || c == '\r'
  }

  /** Open round and square brackets; a closing bracket without an opening one counts for nothing. */
  datatype Depth = Depth(round: nat, square: nat)

  function Deeper(d: Depth, c: char): Depth {
    if c == '(' then d.(round := d.round + 1)
    else if c == ')' && d.round > 0 then d.(round := d.round - 1)
    else if c == '[' then d.(square := d.square + 1)
    else if c == ']' && d.square > 0 then d.(square := d.square - 1)
    else d
  }

  function DepthOf(s: string): Depth {
    if s == [] then Depth(0, 0) else Deeper(DepthOf(s[..|s| - 1]), s[|s| - 1])
  }

  predicate Cuts(before: string, c: char) {
    IsSeparator(c) && DepthOf(before) == Depth(0, 0)
  }

  /** The pieces of a prompt and the separators between them. */
  datatype Pieces = Pieces(atoms: seq<string>, separators: string)

  function Split(s: string): (r: Pieces)
    ensures |r.atoms| == |r.separators| + 1
  {
    if s == [] then Pieces([[]], [])
    else
      var (rest, c) := (Split(s[..|s| - 1]), s[|s| - 1]);
      if Cuts(s[..|s| - 1], c) then Pieces(rest.atoms + [[]], rest.separators + [c])
      else Pieces(Extended(rest.atoms, c), rest.separators)
  }

  function Extended(atoms: seq<string>, c: char): seq<string>
    requires atoms != []
  {
    atoms[..|atoms| - 1] + [atoms[|atoms| - 1] + [c]]
  }

  function Rejoin(p: Pieces): string
    requires |p.atoms| == |p.separators| + 1
    decreases |p.atoms|
  {
    if |p.atoms| == 1 then p.atoms[0]
    else
      Rejoin(Pieces(p.atoms[..|p.atoms| - 1], p.separators[..|p.separators| - 1]))
        + [p.separators[|p.separators| - 1]] + p.atoms[|p.atoms| - 1]
  }

  lemma RejoinPush(p: Pieces, c: char)
    requires |p.atoms| == |p.separators| + 1
    ensures Rejoin(Pieces(p.atoms + [[]], p.separators + [c])) == Rejoin(p) + [c]
  {
    assert (p.atoms + [[]])[..|p.atoms|] == p.atoms && (p.separators + [c])[..|p.separators|] == p.separators;
    assert Rejoin(p) + [c] + [] == Rejoin(p) + [c];
  }

  lemma RejoinExtend(p: Pieces, c: char)
    requires |p.atoms| == |p.separators| + 1
    ensures Rejoin(Pieces(Extended(p.atoms, c), p.separators)) == Rejoin(p) + [c]
  {
    var longer, n := Extended(p.atoms, c), |p.atoms| - 1;
    assert longer[..n] == p.atoms[..n];
    if n > 0 {
      var head := Rejoin(Pieces(p.atoms[..n], p.separators[..n - 1])) + [p.separators[n - 1]];
      assert head + (p.atoms[n] + [c]) == head + p.atoms[n] + [c];
    }
  }

  /** Splitting loses no character: the atoms and separators in turn are the prompt. */
  lemma {:induction false} SplitRejoins(s: string)
    ensures Rejoin(Split(s)) == s
  {
    if s != [] {
      var front, c := s[..|s| - 1], s[|s| - 1];
      SplitRejoins(front);
      RejoinPush(Split(front), c);
      RejoinExtend(Split(front), c);
      assert front + [c] == s;
    }
  }

  lemma AtomGrows(atom: string, c: char)
    ensures DepthOf(atom + [c]) == Deeper(DepthOf(atom), c)
    ensures Split(atom) == Pieces([atom], []) && !Cuts(atom, c) ==> Split(atom + [c]) == Pieces([atom + [c]], [])
  {
    assert (atom + [c])[..|atom|] == atom;
  }

  /** Splitting misses no separator: every separator outside brackets ends an atom, and no atom splits again. */
  lemma {:induction false} AtomsAreWhole(s: string)
    ensures var r := Split(s);
      && (forall k :: 0 <= k < |r.atoms| ==> Split(r.atoms[k]) == Pieces([r.atoms[k]], []))
      && (forall k :: 0 <= k < |r.separators| ==> IsSeparator(r.separators[k]))
      && DepthOf(r.atoms[|r.atoms| - 1]) == DepthOf(s)
  {
    if s != [] {
      var front, c := s[..|s| - 1], s[|s| - 1];
      AtomsAreWhole(front);
      var rest, r := Split(front), Split(s);
      AtomGrows(rest.atoms[|rest.atoms| - 1], c);
      forall k | 0 <= k < |r.atoms|
        ensures Split(r.atoms[k]) == Pieces([r.atoms[k]], [])
      {
        assert k < |rest.atoms| - 1 ==> r.atoms[k] == rest.atoms[k];
      }
    }
  }

  lemma SplitStep(s: string, i: nat)
    requires i < |s|
    ensures DepthOf(s[..i + 1]) == Deeper(DepthOf(s[..i]), s[i])
    ensures var before, after := Split(s[..i]).atoms, Split(s[..i + 1]).atoms;
      if Cuts(s[..i], s[i]) then after == before + [[]] else after == Extended(before, s[i])
  {
    assert s[..i + 1][..i] == s[..i];
  }

  method SplitPromptAtoms(value: string) returns (atoms: seq<string>)
    ensures atoms == Split(value).atoms
  {
    hide Split, DepthOf;
    atoms := [];
    var current, round, square := "", 0, 0;
    SplitNothing();
    for i := 0 to |value|
      invariant round >= 0 && square >= 0 && Depth(round, square) == DepthOf(value[..i])
      invariant Split(value[..i]).atoms == atoms + [current]
    {
      var character := value[i];
      SplitStep(value, i);
      if character == '(' {
        round := round + 1;
      } else if character == ')' && round > 0 {
        round := round - 1;
      } else if character == '[' {
        square := square + 1;
      } else if character == ']' && square > 0 {
        square := square - 1;
      }
      if IsSeparator(character) && round == 0 && square == 0 {
        atoms := atoms + [current];
        current := "";
      } else {
        assert (atoms + [current])[..|atoms|] == atoms;
        current := current + [character];
      }
    }
    assert value[..|value|] == value;
    atoms := atoms + [current];
  }

  lemma SplitNothing()
    ensures Split("").atoms == [""] && DepthOf("") == Depth(0, 0)
  {
  }

  /** How many more opening than closing brackets there are. */
  function Surplus(s: string, opening: char, closing: char): int {
    if s == [] then 0
    else
      var c := s[|s| - 1];
      Surplus(s[..|s| - 1], opening, closing) + if c == opening then 1 else if c == closing then -1 else 0
  }

  /** Nothing is left open: no end of the text opens more brackets of a kind than it closes. */
  ghost predicate Outside(s: string) {
    forall i :: 0 <= i <= |s| ==> Surplus(s[i..], '(', ')') <= 0 && Surplus(s[i..], '[', ']') <= 0
  }

  lemma SurplusGrows(s: string, i: nat, c: char, opening: char, closing: char)
    requires i <= |s|
    ensures (s + [c])[i..] == s[i..] + [c]
    ensures Surplus((s + [c])[i..], opening, closing)
         == Surplus(s[i..], opening, closing) + if c == opening then 1 else if c == closing then -1 else 0
  {
    assert (s + [c])[i..] == s[i..] + [c];
    assert (s[i..] + [c])[..|s[i..]|] == s[i..];
  }

  ghost predicate IsDepth(s: string, opening: char, closing: char, depth: int) {
    && (forall i :: 0 <= i <= |s| ==> Surplus(s[i..], opening, closing) <= depth)
    && (exists i :: 0 <= i <= |s| && Surplus(s[i..], opening, closing) == depth)
  }

  lemma DepthGrows(s: string, c: char, opening: char, closing: char, depth: int)
    requires IsDepth(s, opening, closing, depth) && opening != closing
    ensures IsDepth(s + [c], opening, closing,
              if c == opening then depth + 1 else if c == closing && depth > 0 then depth - 1 else depth)
  {
    var t := s + [c];
    var change := if c == opening then 1 else if c == closing then -1 else 0;
    assert t[|t|..] == [];
    forall i | 0 <= i <= |s|
      ensures Surplus(t[i..], opening, closing) == Surplus(s[i..], opening, closing) + change
    {
      SurplusGrows(s, i, c, opening, closing);
    }
    var best :| 0 <= best <= |s| && Surplus(s[best..], opening, closing) == depth;
    assert Surplus(t[best..], opening, closing) == depth + change;
    assert Surplus(t[|t|..], opening, closing) == 0;
    assert depth >= 0 by {
      assert s[|s|..] == [];
      assert Surplus(s[|s|..], opening, closing) == 0;
    }
  }

  /** The depth of each kind of bracket is the greatest surplus of opening ones over any end of the text. */
  lemma {:induction false} DepthIsSurplus(s: string)
    ensures IsDepth(s, '(', ')', DepthOf(s).round) && IsDepth(s, '[', ']', DepthOf(s).square)
  {
    if s == [] {
      assert s[0..] == [];
      assert Surplus(s[0..], '(', ')') == 0 && Surplus(s[0..], '[', ']') == 0;
    } else {
      var front, c := s[..|s| - 1], s[|s| - 1];
      DepthIsSurplus(front);
      assert s == front + [c];
      DepthGrows(front, c, '(', ')', DepthOf(front).round);
      DepthGrows(front, c, '[', ']', DepthOf(front).square);
      hide IsDepth;
    }
  }

  lemma OutsideIff(s: string)
    ensures DepthOf(s) == Depth(0, 0) <==> Outside(s)
  {
    DepthIsSurplus(s);
    assert s[|s|..] == [];
  }

  /** A separator in an atom that stands outside every bracket. */
  ghost predicate Uncut(atom: string, i: nat) {
    i < |atom| && atom[i] in [',', '\n', '\r'] && Outside(atom[..i])
  }

  ghost predicate Whole(atom: string) {
    forall i: nat :: !Uncut(atom, i)
  }

  lemma WholeGrows(atom: string, c: char)
    requires Whole(atom) && !(c in [',', '\n', '\r'] && Outside(atom))
    ensures Whole(atom + [c])
  {
    hide Outside;
    forall i: nat
      ensures !Uncut(atom + [c], i)
    {
      if i < |atom| {
        assert (atom + [c])[..i] == atom[..i];
        assert !Uncut(atom, i);
      } else if i == |atom| {
        assert (atom + [c])[..i] == atom;
      }
    }
  }

  ghost predicate CutExactly(p: Pieces) {
    && (forall k :: 0 <= k < |p.atoms| ==> Whole(p.atoms[k]))
    && |p.atoms| == |p.separators| + 1
    && (forall k :: 0 <= k < |p.separators| ==> p.separators[k] in [',', '\n', '\r'] && Outside(p.atoms[k]))
  }

  lemma CutPush(p: Pieces, c: char)
    requires CutExactly(p) && c in [',', '\n', '\r'] && Outside(p.atoms[|p.atoms| - 1])
    ensures CutExactly(Pieces(p.atoms + [[]], p.separators + [c]))
  {
    assert Whole([]);
    hide Whole, Outside;
  }

  lemma CutExtend(p: Pieces, c: char)
    requires CutExactly(p) && !(c in [',', '\n', '\r'] && Outside(p.atoms[|p.atoms| - 1]))
    ensures CutExactly(Pieces(Extended(p.atoms, c), p.separators))
  {
    WholeGrows(p.atoms[|p.atoms| - 1], c);
    hide Whole, Outside;
  }

  /** The cuts are the commas and line ends outside brackets: none is left, and all brackets close before one. */
  lemma {:induction false} CutsAreExact(s: string)
    ensures CutExactly(Split(s))
  {
    if s == [] {
      assert Whole([]);
    } else {
      var front, c := s[..|s| - 1], s[|s| - 1];
      CutsAreExact(front);
      AtomsAreWhole(front);
      var rest := Split(front);
      OutsideIff(rest.atoms[|rest.atoms| - 1]);
      hide CutExactly, Outside, DepthOf;
      if Cuts(front, c) {
        CutPush(rest, c);
      } else {
        CutExtend(rest, c);
      }
    }
  }

  // ---------------------------------------------------------------- resources

  /** A resource row after cleaning; resourceHash falls back to hash when it is missing or empty. */
  datatype Resource = Resource(kind: string, resourceHash: Option<string>, name: Option<string>, weight: Option<string>)

  datatype IdentityType = ByHash | ByName

  datatype Identity = Identity(kind: string, identityType: IdentityType, value: string)

  function IdentityOf(r: Resource): Option<Identity> {
    if r.resourceHash.Some? then Some(Identity(r.kind, ByHash, r.resourceHash.value))
    else if r.name.Some? then Some(Identity(r.kind, ByName, r.name.value))
    else None
  }

  /** The recipe dictionary: the recorded weight of each identity, the last row winning. */
  function Recipe(resources: seq<Resource>): map<Identity, Option<string>> {
    if resources == [] then map[]
    else
      var rest, r := Recipe(resources[..|resources| - 1]), resources[|resources| - 1];
      if IdentityOf(r).None? then rest else rest[IdentityOf(r).value := r.weight]
  }

  method ResourceInputs(resources: seq<Resource>)
    returns (identities: set<Identity>, recipe: map<Identity, Option<string>>)
    ensures recipe == Recipe(resources) && identities == recipe.Keys
  {
    identities, recipe := {}, map[];
    for i := 0 to |resources|
      invariant recipe == Recipe(resources[..i]) && identities == recipe.Keys
    {
      assert resources[..i + 1][..i] == resources[..i];
      var identity := IdentityOf(resources[i]);
      if identity.Some? {
        identities, recipe := identities + {identity.value}, recipe[identity.value := resources[i].weight];
      }
    }
    assert resources[..|resources|] == resources;
  }

  /** Rows of one identity carry the same weight. */
  ghost predicate SameWeights(resources: seq<Resource>) {
    forall r, s :: r in resources && s in resources && IdentityOf(r).Some? && IdentityOf(r) == IdentityOf(s) ==>
      r.weight == s.weight
  }

  /** The recipe has exactly the identities of the rows, each with the weight of one of its rows. */
  lemma {:induction false} RecipeMembers(resources: seq<Resource>, k: Identity)
    ensures k in Recipe(resources) <==> exists r :: r in resources && IdentityOf(r) == Some(k)
    ensures k in Recipe(resources) ==>
              exists r :: r in resources && IdentityOf(r) == Some(k) && Recipe(resources)[k] == r.weight
  {
    if resources != [] {
      var front, last := resources[..|resources| - 1], resources[|resources| - 1];
      assert resources == front + [last];
      RecipeMembers(front, k);
    }
  }

  /** A row stands for its hash, or for its name where it has no hash. */
  predicate Names(r: Resource, k: Identity) {
    && r.kind == k.kind
    && match k.identityType
       case ByHash => r.resourceHash == Some(k.value)
       case ByName => r.resourceHash == None && r.name == Some(k.value)
  }

  ghost predicate LastToName(resources: seq<Resource>, k: Identity, i: nat) {
    i < |resources| && Names(resources[i], k) && forall j :: i < j < |resources| ==> !Names(resources[j], k)
  }

  lemma NamesIff(r: Resource, k: Identity)
    ensures IdentityOf(r) == Some(k) <==> Names(r, k)
  {
  }

  /** The recipe has the identities that a row names, each with the weight of the last row that names it. */
  lemma {:induction false} RecipeIsLastWeight(resources: seq<Resource>, k: Identity)
    ensures k in Recipe(resources) <==> exists i: nat :: LastToName(resources, k, i)
    ensures forall i: nat :: LastToName(resources, k, i) ==>
              k in Recipe(resources) && Recipe(resources)[k] == resources[i].weight
  {
    if resources != [] {
      var front, last := resources[..|resources| - 1], resources[|resources| - 1];
      assert resources == front + [last];
      RecipeIsLastWeight(front, k);
      NamesIff(last, k);
      LastNamed(front, last, k);
      forall i: nat | LastToName(resources, k, i)
        ensures k in Recipe(resources) && Recipe(resources)[k] == resources[i].weight
      {
        assert if Names(last, k) then resources[i] == last else LastToName(front, k, i) && resources[i] == front[i];
      }
      hide Names, IdentityOf, LastToName;
    }
  }

  lemma LastNamed(front: seq<Resource>, last: Resource, k: Identity)
    ensures forall i: nat :: LastToName(front + [last], k, i) <==>
              if Names(last, k) then i == |front| else LastToName(front, k, i)
  {
    hide Names;
    var resources := front + [last];
    forall i: nat
      ensures LastToName(resources, k, i) <==> if Names(last, k) then i == |front| else LastToName(front, k, i)
    {
      assert resources[|front|] == last;
      assert forall j :: 0 <= j < |front| ==> resources[j] == front[j];
    }
  }

  /** The family layer never depends on the order of resources. */
  lemma IdentitiesIgnoreOrder(a: seq<Resource>, b: seq<Resource>)
    requires multiset(a) == multiset(b)
    ensures Recipe(a).Keys == Recipe(b).Keys
  {
    forall k
      ensures k in Recipe(a) <==> k in Recipe(b)
    {
      SameMembers(a, b);
      RecipeMembers(a, k);
      RecipeMembers(b, k);
    }
  }

  lemma SameMembers(a: seq<Resource>, b: seq<Resource>)
    requires multiset(a) == multiset(b)
    ensures forall r :: r in a <==> r in b
  {
    forall r
      ensures r in a <==> r in b
    {
      assert r in a <==> r in multiset(a);
      assert r in b <==> r in multiset(b);
    }
  }

  lemma RecipeIgnoresOrder(a: seq<Resource>, b: seq<Resource>)
    requires multiset(a) == multiset(b) && SameWeights(a)
    ensures Recipe(a) == Recipe(b)
  {
    IdentitiesIgnoreOrder(a, b);
    SameMembers(a, b);
    forall k | k in Recipe(a)
      ensures Recipe(a)[k] == Recipe(b)[k]
    {
      RecipeMembers(a, k);
      RecipeMembers(b, k);
    }
  }

  function MovedToEnd(a: seq<Resource>, i: nat): seq<Resource>
    requires i < |a|
  {
    a[..i] + a[i + 1..] + [a[i]]
  }

  /** A row moved to the end decides the weight of its identity. */
  lemma LastRowDecides(a: seq<Resource>, i: nat)
    requires i < |a| && IdentityOf(a[i]).Some?
    ensures multiset(MovedToEnd(a, i)) == multiset(a)
    ensures var recipe, k := Recipe(MovedToEnd(a, i)), IdentityOf(a[i]).value; k in recipe && recipe[k] == a[i].weight
  {
    assert a == a[..i] + [a[i]] + a[i + 1..];
    var b := MovedToEnd(a, i);
    assert b[..|b| - 1] == a[..i] + a[i + 1..];
  }

  ghost predicate SameRecipeInAnyOrder(a: seq<Resource>) {
    forall b: seq<Resource> :: multiset(b) == multiset(a) ==> Recipe(b) == Recipe(a)
  }

  /** The recipe is the same for every order of the rows iff rows of one identity carry the same weight. */
  lemma RecipeIgnoresOrderIff(a: seq<Resource>)
    ensures SameRecipeInAnyOrder(a) <==> SameWeights(a)
  {
    if SameWeights(a) {
      forall b: seq<Resource> | multiset(b) == multiset(a)
        ensures Recipe(b) == Recipe(a)
      {
        RecipeIgnoresOrder(a, b);
      }
    }
    if SameRecipeInAnyOrder(a) {
      forall r, s | r in a && s in a && IdentityOf(r).Some? && IdentityOf(r) == IdentityOf(s)
        ensures r.weight == s.weight
      {
        var i :| 0 <= i < |a| && a[i] == r;
        var j :| 0 <= j < |a| && a[j] == s;
        LastRowDecides(a, i);
        LastRowDecides(a, j);
        hide Recipe;
        assert Recipe(MovedToEnd(a, i)) == Recipe(a) == Recipe(MovedToEnd(a, j));
      }
    }
  }

  /** Two rows of one identity with different weights: the last one wins, so the order does matter. */
  lemma RepeatedIdentityKeepsOrder(r: Resource, weight: Option<string>)
    requires IdentityOf(r).Some? && weight != r.weight
    ensures var s := r.(weight := weight); multiset([r, s]) == multiset([s, r]) && Recipe([r, s]) != Recipe([s, r])
  {
    var s := r.(weight := weight);
    var k := IdentityOf(r).value;
    assert [r, s][..1] == [r] && [s, r][..1] == [s];
    assert Recipe([r, s])[k] == weight && Recipe([s, r])[k] == r.weight;
  }

  // ---------------------------------------------------------------- the four layers

  /** A digest without collisions stands for what was digested, so Digest has a value for every document. */
  datatype Digest = DigestOf(document: Document)

  /** Emphasis, cut off at 0.1 and 2; a canonical spelling stands for its number. */
  type Emphasis = w: real | 0.1 <= w <= 2.0 witness 1.0

  datatype Atom = Atom(identity: string, weight: Emphasis)

  /** The settings that make a recipe: cleaned text and canonical numbers. */
  datatype Settings = Settings(
    sampler: Option<string>, scheduler: Option<string>, steps: Option<real>, cfg: Option<real>, width: Option<real>,
    height: Option<real>, denoising: Option<real>, hiresUpscale: Option<real>, hiresSteps: Option<real>,
    vae: Option<string>)

  datatype WorkflowRow = WorkflowRow(nodeType: string, property: string, value: string)

  /** One canonical metadata snapshot. */
  datatype Source = Source(
    positive: seq<Atom>, negative: seq<Atom>, modelHash: Option<string>, modelName: Option<string>,
    resources: seq<Resource>, settings: Settings, workflowRecipe: seq<WorkflowRow>, seed: Option<string>,
    workflowExact: seq<WorkflowRow>)

  /** What is digested at each layer; dictionaries stand for their key-sorted lists. */
  datatype Document =
    | PromptDocument(positive: seq<Atom>, negative: seq<Atom>)
    | FamilyDocument(prompt: Option<Digest>, model: Option<(IdentityType, string)>, identities: set<Identity>)
    | RecipeDocument(
        family: Option<Digest>, settings: Settings, resources: map<Identity, Option<string>>,
        workflow: seq<WorkflowRow>)
    | ExactDocument(recipe: Option<Digest>, seed: Option<string>, workflow: seq<WorkflowRow>)

  datatype Payload = Payload(
    prompt: Option<Digest>, family: Option<Digest>, recipe: Option<Digest>, exact: Option<Digest>)

  /** The hash names the model, else its name does. */
  function ModelOf(s: Source): Option<(IdentityType, string)> {
    if s.modelHash.Some? then Some((ByHash, s.modelHash.value))
    else if s.modelName.Some? then Some((ByName, s.modelName.value))
    else None
  }

  function PromptDocumentOf(s: Source): Document {
    PromptDocument(s.positive, s.negative)
  }

  function FamilyDocumentOf(s: Source, prompt: Option<Digest>): Document {
    FamilyDocument(prompt, ModelOf(s), Recipe(s.resources).Keys)
  }

  function RecipeDocumentOf(s: Source, family: Option<Digest>): Document {
    RecipeDocument(family, s.settings, Recipe(s.resources), s.workflowRecipe)
  }

  function ExactDocumentOf(s: Source, recipe: Option<Digest>): Document {
    ExactDocument(recipe, s.seed, s.workflowExact)
  }

  function Build(digest: Document -> Digest, s: Source): Payload {
    var prompt := if s.positive != [] || s.negative != [] then Some(digest(PromptDocumentOf(s))) else None;
    var hasFamily := prompt.Some? && (ModelOf(s).Some? || Recipe(s.resources).Keys != {});
    var family := if hasFamily then Some(digest(FamilyDocumentOf(s, prompt))) else None;
    var recipe := if family.Some? then Some(digest(RecipeDocumentOf(s, family))) else None;
    var hasExact := recipe.Some? && (s.seed.Some? || s.workflowExact != []);
    var exact := if hasExact then Some(digest(ExactDocumentOf(s, recipe))) else None;
    Payload(prompt, family, recipe, exact)
  }

  predicate HasPrompt(s: Source) {
    |s.positive| + |s.negative| > 0
  }

  ghost predicate HasFamily(s: Source) {
    && HasPrompt(s)
    && (|| s.modelHash.Some? || s.modelName.Some?
        || exists r :: r in s.resources && (r.resourceHash.Some? || r.name.Some?))
  }

  /** Which digests a source has; a recipe digest goes with every family digest. */
  lemma LayersExistIff(digest: Document -> Digest, s: Source)
    ensures var p := Build(digest, s);
      && (p.prompt.Some? <==> HasPrompt(s))
      && (p.family.Some? <==> HasFamily(s)) && (p.recipe.Some? <==> HasFamily(s))
      && (p.exact.Some? <==> HasFamily(s) && (s.seed.Some? || |s.workflowExact| > 0))
  {
    var keys := Recipe(s.resources).Keys;
    if k :| k in keys {
      RecipeMembers(s.resources, k);
    }
    if r :| r in s.resources && (r.resourceHash.Some? || r.name.Some?) {
      RecipeMembers(s.resources, IdentityOf(r).value);
    }
    hide Recipe;
  }

  /** The model is named by its hash, and by its name only where it has none. */
  lemma SameModelIff(a: Source, b: Source)
    ensures ModelOf(a) == ModelOf(b) <==>
              a.modelHash == b.modelHash && (a.modelHash.Some? || a.modelName == b.modelName)
  {
  }

  ghost predicate Injective(digest: Document -> Digest) {
    forall a, b :: digest(a) == digest(b) ==> a == b
  }

  /** The theorems below speak of something: there is a digest without collisions. */
  lemma InjectiveDigestExists()
    ensures exists digest: Document -> Digest :: Injective(digest)
  {
    assert Injective((d: Document) => DigestOf(d));
  }

  /** Two layers are equal when both exist and have the same digest. */
  predicate Same(a: Option<Digest>, b: Option<Digest>) {
    a.Some? && a == b
  }

  /** The layers nest: equal exact digests mean equal recipe, family and prompt digests, and so on down. */
  lemma LayersNest(digest: Document -> Digest, a: Source, b: Source)
    requires Injective(digest)
    ensures var p, q := Build(digest, a), Build(digest, b);
      && (Same(p.exact, q.exact) ==> Same(p.recipe, q.recipe))
      && (Same(p.recipe, q.recipe) ==> Same(p.family, q.family))
      && (Same(p.family, q.family) ==> Same(p.prompt, q.prompt))
  {
    var p, q := Build(digest, a), Build(digest, b);
    if Same(p.exact, q.exact) {
      assert ExactDocumentOf(a, p.recipe) == ExactDocumentOf(b, q.recipe);
    }
    if Same(p.recipe, q.recipe) {
      assert RecipeDocumentOf(a, p.family) == RecipeDocumentOf(b, q.family);
    }
    if Same(p.family, q.family) {
      assert FamilyDocumentOf(a, p.prompt) == FamilyDocumentOf(b, q.prompt);
    }
  }

  /** Same family digest, iff same prompt atoms, same model and same resource identities. */
  predicate SameFamily(a: Source, b: Source) {
    && a.positive == b.positive && a.negative == b.negative && ModelOf(a) == ModelOf(b)
    && Recipe(a.resources).Keys == Recipe(b.resources).Keys
  }

  predicate SameRecipe(a: Source, b: Source) {
    && SameFamily(a, b) && a.settings == b.settings
    && Recipe(a.resources) == Recipe(b.resources) && a.workflowRecipe == b.workflowRecipe
  }

  predicate SameExact(a: Source, b: Source) {
    SameRecipe(a, b) && a.seed == b.seed && a.workflowExact == b.workflowExact
  }

  /** Where a digest exists, it is equal iff everything that layer stands for is equal. */
  lemma DigestsMeanEquality(digest: Document -> Digest, a: Source, b: Source)
    requires Injective(digest)
    ensures var p, q := Build(digest, a), Build(digest, b);
      && (Same(p.family, q.family) <==> p.family.Some? && SameFamily(a, b))
      && (Same(p.recipe, q.recipe) <==> p.recipe.Some? && SameRecipe(a, b))
      && (Same(p.exact, q.exact) <==> p.exact.Some? && SameExact(a, b))
  {
    var p, q := Build(digest, a), Build(digest, b);
    LayersNest(digest, a, b);
    if Same(p.family, q.family) {
      assert FamilyDocumentOf(a, p.prompt) == FamilyDocumentOf(b, q.prompt);
      assert PromptDocumentOf(a) == PromptDocumentOf(b);
    }
    if Same(p.recipe, q.recipe) {
      assert RecipeDocumentOf(a, p.family) == RecipeDocumentOf(b, q.family);
    }
    if Same(p.exact, q.exact) {
      assert ExactDocumentOf(a, p.recipe) == ExactDocumentOf(b, q.recipe);
    }
  }

  /** Reordering resources leaves prompt and family digest alone. */
  lemma FamilyIgnoresResourceOrder(digest: Document -> Digest, a: Source, resources: seq<Resource>)
    requires multiset(resources) == multiset(a.resources)
    ensures var p, q := Build(digest, a), Build(digest, a.(resources := resources));
      && p.prompt == q.prompt && p.family == q.family
      && (p.recipe.None? <==> q.recipe.None?) && (p.recipe.None? ==> p == q)
  {
    IdentitiesIgnoreOrder(a.resources, resources);
  }

  ghost predicate SameInAnyOrder(digest: Document -> Digest, a: Source) {
    forall resources: seq<Resource> :: multiset(resources) == multiset(a.resources) ==>
      Build(digest, a.(resources := resources)) == Build(digest, a)
  }

  /** All four digests survive every reordering iff there is no recipe digest or each identity has one weight. */
  lemma SignaturesIgnoreResourceOrderIff(digest: Document -> Digest, a: Source)
    requires Injective(digest)
    ensures SameInAnyOrder(digest, a) <==> Build(digest, a).recipe.None? || SameWeights(a.resources)
  {
    RecipeIgnoresOrderIff(a.resources);
    forall resources: seq<Resource> | multiset(resources) == multiset(a.resources)
      ensures Build(digest, a.(resources := resources)) == Build(digest, a) <==>
              Build(digest, a).recipe.None? || Recipe(resources) == Recipe(a.resources)
    {
      OneReordering(digest, a, resources);
    }
  }

  lemma OneReordering(digest: Document -> Digest, a: Source, resources: seq<Resource>)
    requires Injective(digest) && multiset(resources) == multiset(a.resources)
    ensures Build(digest, a.(resources := resources)) == Build(digest, a) <==>
            Build(digest, a).recipe.None? || Recipe(resources) == Recipe(a.resources)
  {
    var b := a.(resources := resources);
    var p, q := Build(digest, a), Build(digest, b);
    FamilyIgnoresResourceOrder(digest, a, resources);
    if p.recipe.Some? && p == q {
      assert RecipeDocumentOf(a, p.family) == RecipeDocumentOf(b, q.family);
    }
  }
}

/**
 * The communique optimisation store (`ui/communique/lib/store.ts`): the
 * submission state, its actions, and the snapshot that is persisted.
 */
module Store {
  import opened Common
  import opened Types

  /** Every field of the store's state. */
  datatype StoreState = StoreState(
    dnaSequence: string,
    sequenceFile: Option<FileRef>,
    wantedOrganisms: seq<Organism>,
    unwantedOrganisms: seq<Organism>,
    tuningParameter: real,
    optimizationMethod: string,
    cubIndex: string)

  /** `initialState`, also what `reset` restores. */
  function InitialState(): StoreState {
    StoreState("", None, [], [], 50.0, "single_codon_diff", "CAI")
  }

  // ------------------------------------------------------------ list updates

  /** `filter((org) => org.id !== id)`. */
  function RemoveById(organisms: seq<Organism>, id: string): (r: seq<Organism>)
    ensures |r| <= |organisms|
    ensures forall o :: o in r <==> o in organisms && o.id != id
  {
    if organisms == [] then []
    else if organisms[0].id == id then RemoveById(organisms[1..], id)
    else [organisms[0]] + RemoveById(organisms[1..], id)
  }

  /** Removal works element by element, so it keeps the survivors in order. */
  lemma {:induction false} RemoveByIdAppend(a: seq<Organism>, b: seq<Organism>, id: string)
    ensures RemoveById(a + b, id) == RemoveById(a, id) + RemoveById(b, id)
  {
    if a != [] {
      assert (a + b)[1..] == a[1..] + b;
      RemoveByIdAppend(a[1..], b, id);
    } else {
      assert a + b == b;
    }
  }

  /** Removing an id no entry carries changes nothing. */
  lemma {:induction false} RemoveUnknownId(organisms: seq<Organism>, id: string)
    requires forall i :: 0 <= i < |organisms| ==> organisms[i].id != id
    ensures RemoveById(organisms, id) == organisms
  {
    if organisms != [] {
      RemoveUnknownId(organisms[1..], id);
    }
  }

  /** Removing twice is removing once. */
  lemma {:induction false} RemoveByIdIdempotent(organisms: seq<Organism>, id: string)
    ensures RemoveById(RemoveById(organisms, id), id) == RemoveById(organisms, id)
  {
    var r := RemoveById(organisms, id);
    forall i | 0 <= i < |r| ensures r[i].id != id {
      assert r[i] in r;
    }
    RemoveUnknownId(r, id);
  }

  /** `map((org) => (org.id === id ? organism : org))`. */
  function ReplaceById(organisms: seq<Organism>, id: string, organism: Organism): (r: seq<Organism>)
    ensures |r| == |organisms|
    ensures forall i :: 0 <= i < |organisms| ==>
      r[i] == if organisms[i].id == id then organism else organisms[i]
  {
    if organisms == [] then []
    else [if organisms[0].id == id then organism else organisms[0]] + ReplaceById(organisms[1..], id, organism)
  }

  /** Replacing an entry by one with the same id, then removing that id,
    * removes the same entries as removing it straight away. */
  lemma {:induction false} RemoveAfterReplace(organisms: seq<Organism>, id: string, organism: Organism)
    requires organism.id == id
    ensures RemoveById(ReplaceById(organisms, id, organism), id) == RemoveById(organisms, id)
  {
    if organisms != [] {
      var r := ReplaceById(organisms, id, organism);
      assert r[1..] == ReplaceById(organisms[1..], id, organism);
      RemoveAfterReplace(organisms[1..], id, organism);
    }
  }

  // ------------------------------------------------------------ persistence

  /** What `partialize` writes to storage: every field but `sequenceFile`. */
  datatype Snapshot = Snapshot(
    dnaSequence: string,
    wantedOrganisms: seq<Organism>,
    unwantedOrganisms: seq<Organism>,
    tuningParameter: real,
    optimizationMethod: string,
    cubIndex: string)

  function Partialize(s: StoreState): Snapshot {
    Snapshot(s.dnaSequence, s.wantedOrganisms, s.unwantedOrganisms,
             s.tuningParameter, s.optimizationMethod, s.cubIndex)
  }

  /** Rehydration: the stored snapshot merged over the initial state. Every
    * snapshot comes back unchanged, and the file is never restored. */
  function Rehydrate(snapshot: Snapshot): (r: StoreState)
    ensures r.sequenceFile.None?
    ensures Partialize(r) == snapshot
  {
    InitialState().(
      dnaSequence := snapshot.dnaSequence,
      wantedOrganisms := snapshot.wantedOrganisms,
      unwantedOrganisms := snapshot.unwantedOrganisms,
      tuningParameter := snapshot.tuningParameter,
      optimizationMethod := snapshot.optimizationMethod,
      cubIndex := snapshot.cubIndex)
  }

  /** A reload restores every field but the uploaded file, which is lost. */
  lemma PersistRoundTrip(s: StoreState)
    ensures Rehydrate(Partialize(s)) == s.(sequenceFile := None)
    ensures Partialize(Rehydrate(Partialize(s))) == Partialize(s)
  {
  }

  /** Two states with the same snapshot differ at most in their file. */
  lemma PartializeDropsOnlyFile(s: StoreState, t: StoreState)
    ensures Partialize(s) == Partialize(t) <==> s.(sequenceFile := None) == t.(sequenceFile := None)
  {
    if Partialize(s) == Partialize(t) {
      PersistRoundTrip(s);
      PersistRoundTrip(t);
    }
  }

  // ------------------------------------------------------------ the store

  /** `useOptimizationStore`: each action overwrites its own fields. */
  class OptimizationStore {
    var dnaSequence: string
    var sequenceFile: Option<FileRef>
    var wantedOrganisms: seq<Organism>
    var unwantedOrganisms: seq<Organism>
    var tuningParameter: real
    var optimizationMethod: string
    var cubIndex: string

    function State(): StoreState
      reads this
    {
      StoreState(dnaSequence, sequenceFile, wantedOrganisms, unwantedOrganisms,
                 tuningParameter, optimizationMethod, cubIndex)
    }

    constructor ()
      ensures State() == InitialState()
    {
      dnaSequence := "";
      sequenceFile := None;
      wantedOrganisms := [];
      unwantedOrganisms := [];
      tuningParameter := 50.0;
      optimizationMethod := "single_codon_diff";
      cubIndex := "CAI";
    }

    method SetDnaSequence(sequence: string)
      modifies this
      ensures State() == old(State()).(dnaSequence := sequence)
    {
      dnaSequence := sequence;
    }

    method SetSequenceFile(file: Option<FileRef>)
      modifies this
      ensures State() == old(State()).(sequenceFile := file)
    {
      sequenceFile := file;
    }

    method AddWantedOrganism(organism: Organism)
      modifies this
      ensures State() == old(State()).(wantedOrganisms := old(wantedOrganisms) + [organism])
    {
      wantedOrganisms := wantedOrganisms + [organism];
    }

    method AddUnwantedOrganism(organism: Organism)
      modifies this
      ensures State() == old(State()).(unwantedOrganisms := old(unwantedOrganisms) + [organism])
    {
      unwantedOrganisms := unwantedOrganisms + [organism];
    }

    method RemoveWantedOrganism(id: string)
      modifies this
      ensures State() == old(State()).(wantedOrganisms := RemoveById(old(wantedOrganisms), id))
    {
      wantedOrganisms := RemoveById(wantedOrganisms, id);
    }

    method RemoveUnwantedOrganism(id: string)
      modifies this
      ensures State() == old(State()).(unwantedOrganisms := RemoveById(old(unwantedOrganisms), id))
    {
      unwantedOrganisms := RemoveById(unwantedOrganisms, id);
    }

    method UpdateWantedOrganism(id: string, organism: Organism)
      modifies this
      ensures State() == old(State()).(wantedOrganisms := ReplaceById(old(wantedOrganisms), id, organism))
    {
      wantedOrganisms := ReplaceById(wantedOrganisms, id, organism);
    }

    method UpdateUnwantedOrganism(id: string, organism: Organism)
      modifies this
      ensures State() == old(State()).(unwantedOrganisms := ReplaceById(old(unwantedOrganisms), id, organism))
    {
      unwantedOrganisms := ReplaceById(unwantedOrganisms, id, organism);
    }

    method SetTuningParameter(value: real)
      modifies this
      ensures State() == old(State()).(tuningParameter := value)
    {
      tuningParameter := value;
    }

    method SetOptimizationMethod(optimizationMethod': string)
      modifies this
      ensures State() == old(State()).(optimizationMethod := optimizationMethod')
    {
      optimizationMethod := optimizationMethod';
    }

    method SetCubIndex(index: string)
      modifies this
      ensures State() == old(State()).(cubIndex := index)
    {
      cubIndex := index;
    }

    method Reset()
      modifies this
      ensures State() == InitialState()
    {
      dnaSequence := "";
      sequenceFile := None;
      wantedOrganisms := [];
      unwantedOrganisms := [];
      tuningParameter := 50.0;
      optimizationMethod := "single_codon_diff";
      cubIndex := "CAI";
    }

    /** `partialize` on the current state. */
    function Persisted(): (p: Snapshot)
      reads this
      ensures Rehydrate(p) == State().(sequenceFile := None)
    {
      Partialize(State())
    }
  }
}

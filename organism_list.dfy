/**
 * The communique organism list (`ui/communique/components/organism-list.tsx`):
 * the default priority, the add form, the per-organism file upload and the
 * edits made on an organism's card, over one of the store's two lists.
 */
module OrganismList {
  import opened Common
  import opened Text
  import opened Types
  import opened Store
  import CommuniqueValidation

  /** Which of the store's lists the component shows. */
  datatype ListKind = Wanted | Unwanted

  /** Which path a card's upload button sets. */
  datatype FileKind = Genome | Expression

  /** The add form: `priority` is `None` while the field is empty. */
  datatype NewOrganism = NewOrganism(genomePath: string, priority: Option<int>, expressionDataPath: string)

  /** The form's empty values, also what it is reset to after an add. */
  function EmptyForm(): NewOrganism {
    NewOrganism("", None, "")
  }

  function SumPriorities(organisms: seq<Organism>): int {
    if organisms == [] then 0 else SumPriorities(organisms[..|organisms| - 1]) + organisms[|organisms| - 1].priority
  }

  /** `calculateDefaultPriority`: 50 for an empty list, else `Math.round` of
    * the mean priority, that is the floor of mean + 1/2. */
  function DefaultPriority(organisms: seq<Organism>): (p: int)
    ensures organisms == [] ==> p == 50
  {
    if |organisms| == 0 then 50
    else (2 * SumPriorities(organisms) + |organisms|) / (2 * |organisms|)
  }

  lemma {:induction false} SumBounds(organisms: seq<Organism>, lo: int, hi: int)
    requires forall i :: 0 <= i < |organisms| ==> lo <= organisms[i].priority <= hi
    ensures |organisms| * lo <= SumPriorities(organisms) <= |organisms| * hi
  {
    if organisms != [] {
      var prefix := organisms[..|organisms| - 1];
      forall i | 0 <= i < |prefix| ensures lo <= prefix[i].priority <= hi {
        assert prefix[i] == organisms[i];
      }
      SumBounds(prefix, lo, hi);
    }
  }

  lemma MulMonotone(d: int, x: int, y: int)
    requires d > 0 && x <= y
    ensures d * x <= d * y
  {
    assert d * y - d * x == d * (y - x);
  }

  /** A quotient by a positive divisor of a number in `[d*lo, d*(hi+1))` lies in `[lo, hi]`. */
  lemma QuotientBounds(a: int, d: int, lo: int, hi: int)
    requires d > 0 && d * lo <= a < d * (hi + 1)
    ensures lo <= a / d <= hi
  {
    var q := a / d;
    assert a == d * q + a % d && 0 <= a % d < d;
    if q < lo {
      MulMonotone(d, q + 1, lo);
    }
    if q > hi {
      MulMonotone(d, hi + 1, q);
    }
  }

  /** The rounded mean lies between the smallest and the largest priority. */
  lemma DefaultPriorityBounds(organisms: seq<Organism>, lo: int, hi: int)
    requires organisms != []
    requires forall i :: 0 <= i < |organisms| ==> lo <= organisms[i].priority <= hi
    ensures lo <= DefaultPriority(organisms) <= hi
  {
    var n := |organisms|;
    var s := SumPriorities(organisms);
    SumBounds(organisms, lo, hi);
    assert (2 * n) * lo == 2 * (n * lo);
    assert (2 * n) * (hi + 1) == 2 * (n * hi) + 2 * n;
    QuotientBounds(2 * s + n, 2 * n, lo, hi);
  }

  /** `newOrganism.priority || calculateDefaultPriority()`: a missing or zero
    * entry falls back to the default. */
  function EnteredPriority(entered: Option<int>, default: int): int {
    if entered.None? || entered.value == 0 then default else entered.value
  }

  /** `expressionDataPath?.trim() || undefined`. */
  function OptionalPath(path: string): (r: Option<string>)
    ensures r.Some? ==> !IsBlank(r.value) && Trim(r.value) == r.value
    ensures r.None? <==> IsBlank(path)
  {
    TrimIdempotent(path);
    if Trim(path) == [] then None else Some(Trim(path))
  }

  /** The organism `handleAddOrganism` builds; `id` stands for `Date.now()`. */
  function NewEntry(form: NewOrganism, id: string, default: int): Organism {
    Organism(id, Trim(form.genomePath), EnteredPriority(form.priority, default), OptionalPath(form.expressionDataPath))
  }

  /** An added organism carries a trimmed, non-blank genome path, a non-zero
    * priority when the default is non-zero, and no blank expression path. */
  lemma NewEntryNormalised(form: NewOrganism, id: string, default: int)
    requires !IsBlank(form.genomePath)
    ensures var o := NewEntry(form, id, default);
      && o.id == id && !IsBlank(o.genomePath) && Trim(o.genomePath) == o.genomePath
      && (default != 0 ==> o.priority != 0)
      && (form.priority.Some? && form.priority.value != 0 ==> o.priority == form.priority.value)
      && (o.expressionDataPath.Some? ==> !IsBlank(o.expressionDataPath.value))
  {
    TrimIdempotent(form.genomePath);
  }

  /** An organism added with a path and with its priority left to the default
    * passes the organism validator when the list's priorities all do. */
  lemma DefaultedEntryValid(organisms: seq<Organism>, form: NewOrganism, id: string)
    requires !IsBlank(form.genomePath)
    requires form.priority.None? || form.priority == Some(0)
    requires forall i :: 0 <= i < |organisms| ==> 1 <= organisms[i].priority <= 100
    ensures var o := NewEntry(form, id, DefaultPriority(organisms));
      CommuniqueValidation.ValidateOrganism(o.genomePath, o.priority).isValid
  {
    TrimIdempotent(form.genomePath);
    if organisms != [] {
      DefaultPriorityBounds(organisms, 1, 100);
    }
    CommuniqueValidation.OrganismValidity(Trim(form.genomePath), DefaultPriority(organisms));
  }

  /** `organisms.find((org) => org.id === id)`: the first entry with that id. */
  function FindById(organisms: seq<Organism>, id: string): (r: Option<Organism>)
    ensures r.Some? ==> r.value.id == id
    ensures r.Some? ==> exists k :: 0 <= k < |organisms| && organisms[k] == r.value
                                  && forall j :: 0 <= j < k ==> organisms[j].id != id
    ensures r.None? <==> forall i :: 0 <= i < |organisms| ==> organisms[i].id != id
  {
    if organisms == [] then None
    else if organisms[0].id == id then Some(organisms[0])
    else
      var r := FindById(organisms[1..], id);
      if r.Some? then
        var k :| 0 <= k < |organisms[1..]| && organisms[1..][k] == r.value
                 && forall j :: 0 <= j < k ==> organisms[1..][j].id != id;
        assert organisms[k + 1] == r.value;
        assert forall j :: 0 <= j < k + 1 ==> organisms[j].id != id by {
          forall j | 0 <= j < k + 1 ensures organisms[j].id != id {
            if j > 0 { assert organisms[j] == organisms[1..][j - 1]; }
          }
        }
        r
      else r
  }

  /** `find` returns the entry at the first index holding the id. */
  lemma FindByIdFirst(organisms: seq<Organism>, id: string, k: nat)
    requires k < |organisms| && organisms[k].id == id
    requires forall j :: 0 <= j < k ==> organisms[j].id != id
    ensures FindById(organisms, id) == Some(organisms[k])
  {
    var r := FindById(organisms, id);
    var k' :| 0 <= k' < |organisms| && organisms[k'] == r.value
              && forall j :: 0 <= j < k' ==> organisms[j].id != id;
    assert k' == k;
  }

  /** The path `handleFileUpload` stores for a file called `name`. */
  function UploadPath(name: string): string {
    "/uploads/" + name
  }

  /** The organism with its genome or expression path set to `path`. */
  function WithPath(organism: Organism, kind: FileKind, path: string): (r: Organism)
    ensures kind == Genome ==> r == organism.(genomePath := path)
    ensures kind == Expression ==> r == organism.(expressionDataPath := Some(path))
  {
    match kind
    case Genome => organism.(genomePath := path)
    case Expression => organism.(expressionDataPath := Some(path))
  }

  /** The list `handleFileUpload` leaves: unchanged for an unknown id, else
    * every entry with that id replaced by the first one with the path set. */
  function UploadedList(organisms: seq<Organism>, id: string, kind: FileKind, name: string): seq<Organism> {
    match FindById(organisms, id)
    case None => organisms
    case Some(organism) => ReplaceById(organisms, id, WithPath(organism, kind, UploadPath(name)))
  }

  /** An upload sets the chosen path of the entries with that id and touches
    * nothing else; for an unknown id it is a no-op. */
  lemma UploadedListEffect(organisms: seq<Organism>, id: string, kind: FileKind, name: string)
    ensures var r := UploadedList(organisms, id, kind, name);
      && |r| == |organisms|
      && (forall i :: 0 <= i < |organisms| && organisms[i].id != id ==> r[i] == organisms[i])
      && (forall i :: 0 <= i < |organisms| && organisms[i].id == id ==>
            r[i].id == id
            && (kind == Genome ==> r[i].genomePath == UploadPath(name))
            && (kind == Expression ==> r[i].expressionDataPath == Some(UploadPath(name))))
      && (FindById(organisms, id).None? ==> r == organisms)
  {
  }

  /** Every entry holding the id becomes the FIRST such entry with the path
    * set: with duplicate ids, later entries take the first one's priority and
    * paths. */
  lemma UploadedCopiesFirst(organisms: seq<Organism>, id: string, kind: FileKind, name: string, k: nat)
    requires k < |organisms| && organisms[k].id == id
    requires forall j :: 0 <= j < k ==> organisms[j].id != id
    ensures var r := UploadedList(organisms, id, kind, name);
      forall i :: 0 <= i < |organisms| && organisms[i].id == id ==>
        r[i] == WithPath(organisms[k], kind, UploadPath(name))
  {
    FindByIdFirst(organisms, id, k);
  }

  /** With a unique id, the upload sets that entry's chosen path and leaves
    * its id, priority and other path as they were. */
  lemma UploadedUniqueEntry(organisms: seq<Organism>, id: string, kind: FileKind, name: string, i: nat)
    requires i < |organisms| && organisms[i].id == id
    requires forall j :: 0 <= j < |organisms| && j != i ==> organisms[j].id != id
    ensures var r := UploadedList(organisms, id, kind, name);
      && r[i] == WithPath(organisms[i], kind, UploadPath(name))
      && r[i].id == organisms[i].id && r[i].priority == organisms[i].priority
      && (kind == Genome ==> r[i].expressionDataPath == organisms[i].expressionDataPath)
      && (kind == Expression ==> r[i].genomePath == organisms[i].genomePath)
  {
    UploadedCopiesFirst(organisms, id, kind, name, i);
  }

  // ------------------------------------------------------------ card edits

  /** The priority field's edit: `Number.parseInt(value) || 50`, with `None`
    * standing for a `NaN` parse. */
  function EditPriority(organism: Organism, parsed: Option<int>): (r: Organism)
    ensures r.id == organism.id && r.genomePath == organism.genomePath
    ensures r.expressionDataPath == organism.expressionDataPath
    ensures r.priority != 0
    ensures parsed.Some? && parsed.value != 0 ==> r.priority == parsed.value
  {
    organism.(priority := if parsed.None? || parsed.value == 0 then 50 else parsed.value)
  }

  /** The expression field's edit: `value || undefined` (no trimming here). */
  function EditExpressionPath(organism: Organism, value: string): (r: Organism)
    ensures r.id == organism.id && r.genomePath == organism.genomePath && r.priority == organism.priority
    ensures r.expressionDataPath.None? <==> value == ""
    ensures r.expressionDataPath.Some? ==> r.expressionDataPath.value == value
  {
    organism.(expressionDataPath := if value == "" then None else Some(value))
  }

  /** A card edit keeps the organism's id, so the store update it triggers
    * replaces exactly that organism's entries. */
  lemma CardEditReplacesOwnEntry(organisms: seq<Organism>, k: nat, parsed: Option<int>)
    requires k < |organisms|
    ensures var edited := EditPriority(organisms[k], parsed);
      var r := ReplaceById(organisms, organisms[k].id, edited);
      && r[k] == edited && r[k].priority != 0
      && (forall i :: 0 <= i < |organisms| && organisms[i].id != organisms[k].id ==> r[i] == organisms[i])
  {
  }

  // ------------------------------------------------------------ the component

  /** One `OrganismList`: its add form over one of the store's lists. */
  class OrganismListView {
    const store: OptimizationStore
    const kind: ListKind
    var newOrganism: NewOrganism

    /** The list this component shows and edits. */
    function Organisms(): seq<Organism>
      reads store
    {
      if kind == Wanted then store.wantedOrganisms else store.unwantedOrganisms
    }

    /** The store state once this component's list is set to `organisms`. */
    function WithOrganisms(s: StoreState, organisms: seq<Organism>): StoreState {
      if kind == Wanted then s.(wantedOrganisms := organisms) else s.(unwantedOrganisms := organisms)
    }

    constructor (store: OptimizationStore, kind: ListKind)
      ensures this.store == store && this.kind == kind && newOrganism == EmptyForm()
    {
      this.store := store;
      this.kind := kind;
      newOrganism := EmptyForm();
    }

    /** `handleAddOrganism`: nothing happens while the path is blank; otherwise
      * the normalised organism is appended to this list and the form reset. */
    method HandleAddOrganism(id: string)
      modifies this, store
      ensures IsBlank(old(newOrganism.genomePath)) ==>
        newOrganism == old(newOrganism) && store.State() == old(store.State())
      ensures !IsBlank(old(newOrganism.genomePath)) ==>
        newOrganism == EmptyForm()
        && store.State() == WithOrganisms(old(store.State()),
             old(Organisms()) + [NewEntry(old(newOrganism), id, DefaultPriority(old(Organisms())))])
    {
      if IsBlank(newOrganism.genomePath) {
        return;
      }
      var organism := NewEntry(newOrganism, id, DefaultPriority(Organisms()));
      if kind == Wanted {
        store.AddWantedOrganism(organism);
      } else {
        store.AddUnwantedOrganism(organism);
      }
      newOrganism := EmptyForm();
    }

    /** `handleFileUpload` for the organism `organismId` and a file called `name`. */
    method HandleFileUpload(organismId: string, fileKind: FileKind, name: string)
      modifies store
      ensures store.State() == WithOrganisms(old(store.State()), UploadedList(old(Organisms()), organismId, fileKind, name))
    {
      var filePath := UploadPath(name);
      var found := FindById(Organisms(), organismId);
      if found.None? {
        return;
      }
      var updated := WithPath(found.value, fileKind, filePath);
      if kind == Wanted {
        store.UpdateWantedOrganism(organismId, updated);
      } else {
        store.UpdateUnwantedOrganism(organismId, updated);
      }
    }
  }
}

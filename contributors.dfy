/** The contributors admin page: a searchable, status-filtered list of
    contributors whose role can be edited, whose active flag can be toggled
    and who can be deleted after a confirmation. */
module Contributors {

  import opened Options
  import opened Lists
  import opened Text

  datatype Role = Contributeur | Admin | Superadmin

  /** The role's string value, which the search also matches. */
  function RoleName(role: Role): string
  {
    match role
    case Contributeur => "contributeur"
    case Admin => "admin"
    case Superadmin => "superadmin"
  }

  datatype Contributor = Contributor(id: int, name: string, email: string, role: Role, active: bool)

  /** The status selector: "all", "active" or "inactive". */
  datatype StatusFilter = All | Active | Inactive

  const InitialContributors: seq<Contributor> := [
    Contributor(1, "Alice Nguema", "alice@example.com", Contributeur, true),
    Contributor(2, "Marc Obiang", "marc@example.com", Admin, true),
    Contributor(3, "Sophie Mba", "sophie@example.com", Contributeur, false)
  ]

  /** The lower-cased search occurs in the lower-cased name, email or role. */
  predicate MatchesSearch(c: Contributor, search: string)
  {
    || Includes(Lower(c.name), Lower(search))
    || Includes(Lower(c.email), Lower(search))
    || Includes(Lower(RoleName(c.role)), Lower(search))
  }

  predicate MatchesStatus(c: Contributor, status: StatusFilter)
  {
    match status
    case All => true
    case Active => c.active
    case Inactive => !c.active
  }

  predicate Listed(c: Contributor, search: string, status: StatusFilter)
  {
    MatchesSearch(c, search) && MatchesStatus(c, status)
  }

  /** `filteredContributors`: the contributors that match both the search
      and the status filter, in their original order. */
  function FilteredContributors(cs: seq<Contributor>, search: string, status: StatusFilter): (r: seq<Contributor>)
    ensures IsSubsequence(r, cs)
    ensures forall c :: c in r <==> c in cs && Listed(c, search, status)
  {
    var keep := (c: Contributor) => Listed(c, search, status);
    FilterIsSubsequence(cs, keep);
    FilterMembers(cs, keep);
    Filter(cs, keep)
  }

  /** An empty search hides nobody: only the status filter applies, and
      "all" lists everyone. */
  lemma EmptySearchFiltersByStatusOnly(cs: seq<Contributor>, status: StatusFilter)
    ensures FilteredContributors(cs, "", status) == Filter(cs, (c: Contributor) => MatchesStatus(c, status))
    ensures FilteredContributors(cs, "", All) == cs
  {
    forall c: Contributor ensures MatchesSearch(c, "") {
      EmptyIncluded(Lower(c.name));
    }
    FilterAgree(cs, (c: Contributor) => Listed(c, "", status), (c: Contributor) => MatchesStatus(c, status));
    FilterKeepsAll(cs, (c: Contributor) => Listed(c, "", All));
  }

  /** `prev.map(c => c.id === id ? { ...c, role } : c)`. */
  function WithRole(cs: seq<Contributor>, id: int, role: Role): seq<Contributor>
  {
    MapWhere(cs, (c: Contributor) => c.id == id, (c: Contributor) => c.(role := role))
  }

  /** Editing changes the role of the records with that id and nothing else:
      same length, same order, every other field and record untouched. */
  lemma WithRoleChangesOnlyRole(cs: seq<Contributor>, id: int, role: Role)
    ensures |WithRole(cs, id, role)| == |cs|
    ensures forall i :: 0 <= i < |cs| ==>
      WithRole(cs, id, role)[i] == if cs[i].id == id then cs[i].(role := role) else cs[i]
  {
    MapWhereAt(cs, (c: Contributor) => c.id == id, (c: Contributor) => c.(role := role));
  }

  /** `prev.map(c => c.id === id ? { ...c, active: !c.active } : c)`. */
  function Toggled(cs: seq<Contributor>, id: int): seq<Contributor>
  {
    MapWhere(cs, (c: Contributor) => c.id == id, (c: Contributor) => c.(active := !c.active))
  }

  /** Toggling flips `active` on the records with that id and changes nothing else. */
  lemma ToggledFlipsOnlyActive(cs: seq<Contributor>, id: int)
    ensures |Toggled(cs, id)| == |cs|
    ensures forall i :: 0 <= i < |cs| ==>
      Toggled(cs, id)[i] == if cs[i].id == id then cs[i].(active := !cs[i].active) else cs[i]
  {
    MapWhereAt(cs, (c: Contributor) => c.id == id, (c: Contributor) => c.(active := !c.active));
  }

  /** Toggling the same id twice restores the list. */
  lemma ToggleTwiceIsIdentity(cs: seq<Contributor>, id: int)
    ensures Toggled(Toggled(cs, id), id) == cs
  {
    MapWhereTwice(cs, (c: Contributor) => c.id == id, (c: Contributor) => c.(active := !c.active));
  }

  /** `prev.filter(c => c.id !== id)`. */
  function Removed(cs: seq<Contributor>, id: int): seq<Contributor>
  {
    Filter(cs, (c: Contributor) => c.id != id)
  }

  /** Deleting removes exactly the records with that id and keeps every
      other record, as often as it occurred and in its order. */
  lemma RemovedKeepsOthers(cs: seq<Contributor>, id: int)
    ensures IsSubsequence(Removed(cs, id), cs)
    ensures forall c :: c in Removed(cs, id) <==> c in cs && c.id != id
    ensures forall c: Contributor :: c.id != id ==> multiset(Removed(cs, id))[c] == multiset(cs)[c]
  {
    FilterIsSubsequence(cs, (c: Contributor) => c.id != id);
    FilterMembers(cs, (c: Contributor) => c.id != id);
    FilterCounts(cs, (c: Contributor) => c.id != id);
  }

  /** The page's state. */
  class ContributorsPage {
    var contributors: seq<Contributor>
    var search: string
    var statusFilter: StatusFilter
    var isOpen: bool
    var editingContributor: Option<Contributor>

    /** What the table shows. */
    function Shown(): (r: seq<Contributor>)
      reads this
      ensures forall c :: c in r <==> c in contributors && Listed(c, search, statusFilter)
    {
      FilteredContributors(contributors, search, statusFilter)
    }

    constructor ()
      ensures contributors == InitialContributors && search == "" && statusFilter == All
      ensures !isOpen && editingContributor == None
    {
      contributors := InitialContributors;
      search, statusFilter := "", All;
      isOpen, editingContributor := false, None;
    }

    method SetSearch(text: string)
      modifies this
      ensures search == text
      ensures contributors == old(contributors) && statusFilter == old(statusFilter)
      ensures isOpen == old(isOpen) && editingContributor == old(editingContributor)
    {
      search := text;
    }

    method SetStatusFilter(status: StatusFilter)
      modifies this
      ensures statusFilter == status
      ensures contributors == old(contributors) && search == old(search)
      ensures isOpen == old(isOpen) && editingContributor == old(editingContributor)
    {
      statusFilter := status;
    }

    /** `openModal`: start editing `c`. */
    method OpenModal(c: Contributor)
      modifies this
      ensures isOpen && editingContributor == Some(c)
      ensures contributors == old(contributors) && search == old(search) && statusFilter == old(statusFilter)
    {
      editingContributor := Some(c);
      isOpen := true;
    }

    /** `closeModal`: the dialog closes and nobody is being edited. */
    method CloseModal()
      modifies this
      ensures !isOpen && editingContributor == None
      ensures contributors == old(contributors) && search == old(search) && statusFilter == old(statusFilter)
    {
      isOpen := false;
      editingContributor := None;
    }

    /** `onSubmit`: give the edited contributor the submitted role, then close. */
    method OnSubmit(role: Role)
      modifies this
      ensures contributors == match old(editingContributor)
        case Some(e) => WithRole(old(contributors), e.id, role)
        case None => old(contributors)
      ensures !isOpen && editingContributor == None
      ensures search == old(search) && statusFilter == old(statusFilter)
    {
      if editingContributor.Some? {
        contributors := WithRole(contributors, editingContributor.value.id, role);
      }
      CloseModal();
    }

    /** `deleteContributor`; `confirmed` is the user's answer to the browser's
        confirmation prompt. */
    method DeleteContributor(id: int, confirmed: bool)
      modifies this
      ensures contributors == if confirmed then Removed(old(contributors), id) else old(contributors)
      ensures search == old(search) && statusFilter == old(statusFilter)
      ensures isOpen == old(isOpen) && editingContributor == old(editingContributor)
    {
      if confirmed {
        contributors := Removed(contributors, id);
      }
    }

    /** `toggleActiveStatus`. */
    method ToggleActiveStatus(id: int)
      modifies this
      ensures contributors == Toggled(old(contributors), id)
      ensures search == old(search) && statusFilter == old(statusFilter)
      ensures isOpen == old(isOpen) && editingContributor == old(editingContributor)
    {
      contributors := Toggled(contributors, id);
    }
  }
}

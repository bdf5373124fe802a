/** Lists of named entries that are checked one by one against one growing set of names. */
module NamedLists {
  import opened Basics
  import opened ConfigChecks

  datatype Section = DataImports | TargetImports | DescriptorImports | DataExports | TargetExports

  /** The field of an import that holds a reference. */
  datatype ReferenceField = SecretRef | ConfigMapRef

  datatype Problem =
    | NameRequired
    | DuplicateName
    | NotExactlyOneSource(verdict: OneOf)
    | ReferenceNameRequired(field: ReferenceField)
    | ReferenceNamespaceRequired(field: ReferenceField)
    | EmptyTarget(position: nat)
    | TargetRequired
    | DataRefRequired
    | DataRefForbidden
    | SecretForbidden
    | ConfigMapForbidden
    | InList(element: nat, problem: Problem)

  datatype Issue = Issue(section: Section, index: nat, problem: Problem)

  /** An entry with what is wrong with it by itself; `counted` says whether its name takes part in the name set. */
  datatype Entry = Entry(name: string, problems: seq<Problem>, counted: bool)

  function Issues(section: Section, index: nat, problems: seq<Problem>): seq<Issue> {
    seq(|problems|, k requires 0 <= k < |problems| => Issue(section, index, problems[k]))
  }

  /** The names known before entry `i`. */
  function SeenBefore(entries: seq<Entry>, i: nat, seen: set<string>): set<string>
    requires i <= |entries|
  {
    seen + set k | 0 <= k < i && entries[k].counted :: entries[k].name
  }

  function EntryProblems(entry: Entry, seen: set<string>): seq<Problem> {
    entry.problems + if entry.counted && entry.name in seen then [DuplicateName] else []
  }

  /** What is found, entry by entry. */
  function ListIssues(section: Section, entries: seq<Entry>, seen: set<string>): seq<seq<Issue>> {
    seq(|entries|, i requires 0 <= i < |entries| =>
      Issues(section, i, EntryProblems(entries[i], SeenBefore(entries, i, seen))))
  }

  lemma SeenStep(entries: seq<Entry>, i: nat, seen: set<string>)
    requires i < |entries|
    ensures SeenBefore(entries, i + 1, seen) ==
      SeenBefore(entries, i, seen) + if entries[i].counted then {entries[i].name} else {}
  {
  }

  // ---------- Acceptance ----------

  function NamesOf(entries: seq<Entry>): seq<string> {
    seq(|entries|, i requires 0 <= i < |entries| => entries[i].name)
  }

  /** No name is empty, known before, or used twice. */
  predicate FreshNames(names: seq<string>, seen: set<string>) {
    Distinct(names) && forall i :: 0 <= i < |names| ==> names[i] != "" && names[i] !in seen
  }

  lemma FreshNamesConcat(a: seq<string>, b: seq<string>, seen: set<string>)
    ensures FreshNames(a + b, seen) <==> FreshNames(a, seen) && FreshNames(b, seen + Elements(a))
  {
    var s := a + b;
    assert forall i :: 0 <= i < |a| ==> s[i] == a[i];
    assert forall i :: 0 <= i < |b| ==> s[|a| + i] == b[i];
    if FreshNames(s, seen) {
      DistinctSplit(a, b);
    }
    if FreshNames(a, seen) && FreshNames(b, seen + Elements(a)) {
      DistinctConcat(a, b);
    }
  }

  /** An entry with an empty name has a problem by itself, and an entry that is not counted has an empty name. */
  predicate WellFormed(entries: seq<Entry>) {
    forall i :: 0 <= i < |entries| ==>
      (entries[i].name == "" ==> entries[i].problems != []) && (!entries[i].counted ==> entries[i].name == "")
  }

  predicate AllOk(entries: seq<Entry>) {
    forall i :: 0 <= i < |entries| ==> entries[i].problems == []
  }

  /** Nothing is found exactly when every entry is in order by itself and the names are fresh. */
  lemma NothingFoundIff(section: Section, entries: seq<Entry>, seen: set<string>)
    requires WellFormed(entries)
    ensures ConcatAll(ListIssues(section, entries, seen)) == [] <==>
      AllOk(entries) && FreshNames(NamesOf(entries), seen)
  {
    var parts, names := ListIssues(section, entries, seen), NamesOf(entries);
    ConcatAllEmpty(parts);
    assert forall i :: 0 <= i < |parts| ==> (parts[i] == [] <==>
      EntryProblems(entries[i], SeenBefore(entries, i, seen)) == []);
    if forall i :: 0 <= i < |parts| ==> parts[i] == [] {
      forall i | 0 <= i < |entries| ensures entries[i].problems == [] && names[i] !in SeenBefore(entries, i, seen) {
        assert parts[i] == [];
      }
      forall i, j | 0 <= i < j < |names| ensures names[i] != names[j] {
        assert names[j] !in SeenBefore(entries, j, seen);
        assert entries[i].counted && entries[i].name in SeenBefore(entries, j, seen);
      }
    }
    if AllOk(entries) && FreshNames(names, seen) {
      forall i | 0 <= i < |parts| ensures parts[i] == [] {
        assert entries[i].name == names[i];
        assert forall k :: 0 <= k < i ==> entries[k].name == names[k];
      }
    }
  }
}

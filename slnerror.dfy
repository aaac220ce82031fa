/**
  The diagnostic sink: the set of enabled error categories, the table that
  translates category names (and the meta-selectors none/default/all/pedantic)
  into categories, and the append-only list of reported errors.
*/
module SlnErrors {
  import opened Wrappers
  import opened Text

  datatype ErrorId =
    | NoErrors | DefaultErrors | AllErrors | PedanticErrors
    | MissingFile | LoadFailed | MissingOrBadGuid | MissingVersion | BadVersion
    | MissingAssemblyName | MissingRelativeOutputPath | MissingPreBuildImport
    | MissingPostBuildImport | MismatchedAssemblyName | DuplicateGuid
    | DuplicateProjectName | ProjectsOverlapped
  {
    predicate IsMetaSelector() {
      NoErrors? || DefaultErrors? || AllErrors? || PedanticErrors?
    }
  }

  /** The enum member's name, as String.Format("{0}", id) renders it. */
  function Name(id: ErrorId): string {
    match id
    case NoErrors => "NoErrors"
    case DefaultErrors => "DefaultErrors"
    case AllErrors => "AllErrors"
    case PedanticErrors => "PedanticErrors"
    case MissingFile => "MissingFile"
    case LoadFailed => "LoadFailed"
    case MissingOrBadGuid => "MissingOrBadGuid"
    case MissingVersion => "MissingVersion"
    case BadVersion => "BadVersion"
    case MissingAssemblyName => "MissingAssemblyName"
    case MissingRelativeOutputPath => "MissingRelativeOutputPath"
    case MissingPreBuildImport => "MissingPreBuildImport"
    case MissingPostBuildImport => "MissingPostBuildImport"
    case MismatchedAssemblyName => "MismatchedAssemblyName"
    case DuplicateGuid => "DuplicateGuid"
    case DuplicateProjectName => "DuplicateProjectName"
    case ProjectsOverlapped => "ProjectsOverlapped"
  }

  /** Name(id) in lower case: the key the translation table uses for a category. */
  function LowerName(id: ErrorId): string {
    match id
    case NoErrors => "noerrors"
    case DefaultErrors => "defaulterrors"
    case AllErrors => "allerrors"
    case PedanticErrors => "pedanticerrors"
    case MissingFile => "missingfile"
    case LoadFailed => "loadfailed"
    case MissingOrBadGuid => "missingorbadguid"
    case MissingVersion => "missingversion"
    case BadVersion => "badversion"
    case MissingAssemblyName => "missingassemblyname"
    case MissingRelativeOutputPath => "missingrelativeoutputpath"
    case MissingPreBuildImport => "missingprebuildimport"
    case MissingPostBuildImport => "missingpostbuildimport"
    case MismatchedAssemblyName => "mismatchedassemblyname"
    case DuplicateGuid => "duplicateguid"
    case DuplicateProjectName => "duplicateprojectname"
    case ProjectsOverlapped => "projectsoverlapped"
  }

  lemma LowerNameInjective(a: ErrorId, b: ErrorId)
    requires LowerName(a) == LowerName(b)
    ensures a == b
  {
    var s, t := LowerName(a), LowerName(b);
    assert |s| == |t| && s[0] == t[0] && s[1] == t[1] && s[3] == t[3];
  }

  /** The categories a fresh sink and the "default" selector enable. */
  const DefaultEnabled: seq<ErrorId> := [
    MissingFile, LoadFailed, MissingOrBadGuid, BadVersion, MissingAssemblyName,
    DuplicateGuid, DuplicateProjectName]

  /** The categories the "all" selector enables; also the reported name list. */
  const AllEnabled: seq<ErrorId> := [
    MissingFile, LoadFailed, MissingOrBadGuid, MissingVersion, BadVersion,
    MissingAssemblyName, MismatchedAssemblyName, DuplicateGuid,
    DuplicateProjectName, ProjectsOverlapped]

  /** The categories the "pedantic" selector enables: every real category. */
  const Pedantic: seq<ErrorId> := [
    MissingFile, LoadFailed, MissingOrBadGuid, MissingVersion, BadVersion,
    MissingAssemblyName, MissingRelativeOutputPath, MissingPreBuildImport,
    MissingPostBuildImport, MismatchedAssemblyName, DuplicateGuid,
    DuplicateProjectName, ProjectsOverlapped]

  function SetOf(ids: seq<ErrorId>): set<ErrorId> {
    set id | id in ids
  }

  /** The tables nest, and pedantic is exactly the categories that are not meta-selectors. */
  lemma TablesNest()
    ensures SetOf(DefaultEnabled) <= SetOf(AllEnabled) <= SetOf(Pedantic)
    ensures forall id: ErrorId :: id in Pedantic <==> !id.IsMetaSelector()
  {
  }

  /** The entries for a list of categories: each name, and each name with a leading '-'. */
  function CategoryEntries(ids: seq<ErrorId>): map<string, ErrorId> {
    if ids == [] then map[]
    else
      var id := ids[|ids| - 1];
      CategoryEntries(ids[..|ids| - 1])[LowerName(id) := id]["-" + LowerName(id) := id]
  }

  /** The translation table that Init builds. */
  function InitialTranslate(): map<string, ErrorId> {
    CategoryEntries(Pedantic)["none" := NoErrors]["default" := DefaultErrors]
      ["all" := AllErrors]["pedantic" := PedanticErrors]
  }

  lemma LowerNameNotNegated(id: ErrorId)
    ensures LowerName(id) != "" && LowerName(id)[0] != '-'
  {
  }

  /** A plain and a negated key never coincide, and distinct categories have distinct keys. */
  lemma KeysDistinct(id: ErrorId, other: ErrorId)
    requires id != other
    ensures LowerName(id) != LowerName(other)
    ensures "-" + LowerName(id) != "-" + LowerName(other)
    ensures LowerName(id) != "-" + LowerName(other)
  {
    if LowerName(id) == LowerName(other) {
      LowerNameInjective(id, other);
    }
    assert ("-" + LowerName(id))[1..] == LowerName(id);
    assert ("-" + LowerName(other))[1..] == LowerName(other);
    LowerNameNotNegated(id);
  }

  /** Every category name of the list, plain or negated, maps to its category. */
  lemma {:induction false} CategoryEntriesLookup(ids: seq<ErrorId>)
    ensures forall id :: id in ids ==>
      LowerName(id) in CategoryEntries(ids) && CategoryEntries(ids)[LowerName(id)] == id
      && "-" + LowerName(id) in CategoryEntries(ids) && CategoryEntries(ids)["-" + LowerName(id)] == id
  {
    if ids != [] {
      var last := ids[|ids| - 1];
      var front := ids[..|ids| - 1];
      CategoryEntriesLookup(front);
      assert ids == front + [last];
      forall id | id in ids && id != last
        ensures CategoryEntries(ids)[LowerName(id)] == id
        ensures CategoryEntries(ids)["-" + LowerName(id)] == id
      {
        assert id in front;
        KeysDistinct(id, last);
        KeysDistinct(last, id);
      }
    }
  }

  /** The keys of the entries are exactly the plain and negated names of the list. */
  lemma {:induction false} CategoryEntriesKeys(ids: seq<ErrorId>)
    ensures forall k :: k in CategoryEntries(ids) <==>
      exists id :: id in ids && (k == LowerName(id) || k == "-" + LowerName(id))
  {
    if ids != [] {
      var front := ids[..|ids| - 1];
      CategoryEntriesKeys(front);
      assert ids == front + [ids[|ids| - 1]];
    }
  }

  lemma InitialTranslateLookup()
    ensures forall id :: id in Pedantic ==>
      LowerName(id) in InitialTranslate() && InitialTranslate()[LowerName(id)] == id
      && "-" + LowerName(id) in InitialTranslate() && InitialTranslate()["-" + LowerName(id)] == id
    ensures "none" in InitialTranslate() && InitialTranslate()["none"] == NoErrors
    ensures "default" in InitialTranslate() && InitialTranslate()["default"] == DefaultErrors
    ensures "all" in InitialTranslate() && InitialTranslate()["all"] == AllErrors
    ensures "pedantic" in InitialTranslate() && InitialTranslate()["pedantic"] == PedanticErrors
  {
    CategoryEntriesLookup(Pedantic);
    forall id | id in Pedantic
      ensures LowerName(id) !in {"none", "default", "all", "pedantic"}
      ensures "-" + LowerName(id) !in {"none", "default", "all", "pedantic"}
    {
      LowerNameLong(id);
    }
  }

  /** Category names are longer than every meta-selector's table key. */
  lemma LowerNameLong(id: ErrorId)
    requires id in Pedantic
    ensures |LowerName(id)| >= 10
  {
  }

  /**
    The enabled set after ChangeEnabled(theName), or None when the name is not
    in the table (and the set is left as it was). A meta-selector replaces the
    set; a category name adds its category, or removes it when negated by '-'.
  */
  function ChangedEnabled(enabled: set<ErrorId>, translate: map<string, ErrorId>, theName: string)
    : Option<set<ErrorId>>
  {
    var name := Lower(theName);
    if name !in translate then None
    else
      var id := translate[name];
      Some(if id == NoErrors then {}
        else if id == DefaultErrors then SetOf(DefaultEnabled)
        else if id == AllErrors then SetOf(AllEnabled)
        else if id == PedanticErrors then SetOf(Pedantic)
        else if !StartsWith(name, "-") then enabled + {id}
        else enabled - {id})
  }

  /** The lookup ignores case. */
  lemma ChangeIgnoresCase(enabled: set<ErrorId>, translate: map<string, ErrorId>, a: string, b: string)
    requires EqualsIgnoreCase(a, b)
    ensures ChangedEnabled(enabled, translate, a) == ChangedEnabled(enabled, translate, b)
  {
  }

  /** With Init's table, a name that is not in it changes nothing. */
  lemma UnknownNameChangesNothing(enabled: set<ErrorId>, theName: string)
    requires forall id :: Lower(theName) != LowerName(id) && Lower(theName) != "-" + LowerName(id)
    requires Lower(theName) !in {"none", "default", "all", "pedantic"}
    ensures ChangedEnabled(enabled, InitialTranslate(), theName) == None
  {
    CategoryEntriesKeys(Pedantic);
  }

  /** With Init's table, each meta-selector replaces the enabled set by its table, whatever it was. */
  lemma SelectorsReplace(enabled: set<ErrorId>, theName: string)
    ensures Lower(theName) == "none" ==> ChangedEnabled(enabled, InitialTranslate(), theName) == Some({})
    ensures Lower(theName) == "default" ==>
      ChangedEnabled(enabled, InitialTranslate(), theName) == Some(SetOf(DefaultEnabled))
    ensures Lower(theName) == "all" ==>
      ChangedEnabled(enabled, InitialTranslate(), theName) == Some(SetOf(AllEnabled))
    ensures Lower(theName) == "pedantic" ==>
      ChangedEnabled(enabled, InitialTranslate(), theName) == Some(SetOf(Pedantic))
  {
    InitialTranslateLookup();
  }

  /**
    With Init's table, a category's name enables exactly that category and its
    negation disables exactly that category; every other category is untouched.
  */
  lemma CategoryToggles(enabled: set<ErrorId>, id: ErrorId, theName: string)
    requires !id.IsMetaSelector()
    ensures Lower(theName) == LowerName(id) ==>
      ChangedEnabled(enabled, InitialTranslate(), theName) == Some(enabled + {id})
    ensures Lower(theName) == "-" + LowerName(id) ==>
      ChangedEnabled(enabled, InitialTranslate(), theName) == Some(enabled - {id})
  {
    var t := InitialTranslate();
    var key := LowerName(id);
    assert id in Pedantic by {
      TablesNest();
    }
    assert key in t && t[key] == id && "-" + key in t && t["-" + key] == id by {
      InitialTranslateLookup();
    }
    LowerNameNotNegated(id);
    assert !StartsWith(key, "-");
    assert StartsWith("-" + key, "-");
    ToggleStep(enabled, t, id, theName);
  }

  lemma ToggleStep(enabled: set<ErrorId>, t: map<string, ErrorId>, id: ErrorId, theName: string)
    requires !id.IsMetaSelector()
    requires LowerName(id) in t && t[LowerName(id)] == id && !StartsWith(LowerName(id), "-")
    requires "-" + LowerName(id) in t && t["-" + LowerName(id)] == id && StartsWith("-" + LowerName(id), "-")
    ensures Lower(theName) == LowerName(id) ==> ChangedEnabled(enabled, t, theName) == Some(enabled + {id})
    ensures Lower(theName) == "-" + LowerName(id) ==> ChangedEnabled(enabled, t, theName) == Some(enabled - {id})
  {
  }

  /** A reported error: its category, its source and the optional extra lines. */
  datatype Diagnostic = Diagnostic(id: ErrorId, source: string, extraInfo: Option<seq<string>>)

  /** The reports a sink whose enabled set is `enabled` keeps, in order. */
  function Kept(enabled: set<ErrorId>, ds: seq<Diagnostic>): (r: seq<Diagnostic>)
    ensures |r| <= |ds|
  {
    if ds == [] then []
    else Kept(enabled, ds[..|ds| - 1]) + (if ds[|ds| - 1].id in enabled then [ds[|ds| - 1]] else [])
  }

  lemma KeptSnoc(enabled: set<ErrorId>, ds: seq<Diagnostic>, d: Diagnostic)
    ensures Kept(enabled, ds + [d]) == Kept(enabled, ds) + (if d.id in enabled then [d] else [])
  {
    assert (ds + [d])[..|ds|] == ds;
  }

  lemma {:induction false} KeptAppend(enabled: set<ErrorId>, a: seq<Diagnostic>, b: seq<Diagnostic>)
    ensures Kept(enabled, a + b) == Kept(enabled, a) + Kept(enabled, b)
    decreases |b|
  {
    if b == [] {
      assert a + b == a;
    } else {
      var front := b[..|b| - 1];
      assert a + b == (a + front) + [b[|b| - 1]];
      KeptAppend(enabled, a, front);
      KeptSnoc(enabled, a + front, b[|b| - 1]);
      KeptSnoc(enabled, front, b[|b| - 1]);
      assert front + [b[|b| - 1]] == b;
    }
  }

  function NamesOf(ids: seq<ErrorId>): (r: seq<string>)
    ensures |r| == |ids| && forall i :: 0 <= i < |ids| ==> r[i] == Name(ids[i])
  {
    seq(|ids|, i requires 0 <= i < |ids| => Name(ids[i]))
  }

  /** The sink that the source keeps in static fields of SlnError. */
  class ErrorSink {
    var enabled: set<ErrorId>
    var names: seq<string>
    var translate: map<string, ErrorId>
    var errors: seq<Diagnostic>

    /** Init: default categories, the name list of "all", the translation table, no errors. */
    constructor Init()
      ensures enabled == SetOf(DefaultEnabled)
      ensures names == NamesOf(AllEnabled)
      ensures translate == InitialTranslate()
      ensures errors == []
    {
      var on: set<ErrorId> := {};
      for i := 0 to |DefaultEnabled|
        invariant on == SetOf(DefaultEnabled[..i])
      {
        on := on + {DefaultEnabled[i]};
        assert DefaultEnabled[..i + 1] == DefaultEnabled[..i] + [DefaultEnabled[i]];
      }
      assert DefaultEnabled[..|DefaultEnabled|] == DefaultEnabled;
      var list: seq<string> := [];
      for i := 0 to |AllEnabled|
        invariant list == NamesOf(AllEnabled[..i])
      {
        list := list + [Name(AllEnabled[i])];
      }
      assert AllEnabled[..|AllEnabled|] == AllEnabled;
      var table: map<string, ErrorId> := map[];
      for i := 0 to |Pedantic|
        invariant table == CategoryEntries(Pedantic[..i])
      {
        var name := LowerName(Pedantic[i]);
        table := table[name := Pedantic[i]];
        table := table["-" + name := Pedantic[i]];
        assert Pedantic[..i + 1][..i] == Pedantic[..i];
      }
      assert Pedantic[..|Pedantic|] == Pedantic;
      table := table["none" := NoErrors];
      table := table["default" := DefaultErrors];
      table := table["all" := AllErrors];
      table := table["pedantic" := PedanticErrors];
      enabled := on;
      names := list;
      translate := table;
      errors := [];
    }

    /** Clears the enabled set and enables every category of the table. */
    method EnableOnly(table: seq<ErrorId>)
      modifies this
      ensures enabled == SetOf(table)
      ensures names == old(names) && translate == old(translate) && errors == old(errors)
    {
      enabled := {};
      for i := 0 to |table|
        invariant enabled == SetOf(table[..i])
        invariant names == old(names) && translate == old(translate) && errors == old(errors)
      {
        enabled := enabled + {table[i]};
        assert table[..i + 1] == table[..i] + [table[i]];
      }
      assert table[..|table|] == table;
    }

    /** ChangeEnabled: false and no change for an unknown name. */
    method ChangeEnabled(theName: string) returns (known: bool)
      modifies this
      ensures known == ChangedEnabled(old(enabled), translate, theName).Some?
      ensures enabled == ChangedEnabled(old(enabled), translate, theName).GetOr(old(enabled))
      ensures names == old(names) && translate == old(translate) && errors == old(errors)
    {
      var name := Lower(theName);
      if name !in translate {
        return false;
      }
      var id := translate[name];
      var enable := !StartsWith(name, "-");
      known := true;
      match id
      case NoErrors =>
        enabled := {};
      case DefaultErrors =>
        EnableOnly(DefaultEnabled);
      case AllErrors =>
        EnableOnly(AllEnabled);
      case PedanticErrors =>
        EnableOnly(Pedantic);
      case _ =>
        if enable {
          enabled := enabled + {id};
        } else {
          enabled := enabled - {id};
        }
    }

    /** ReportError(id, source): appends one entry, without extra lines, when the category is enabled. */
    method ReportError(theId: ErrorId, theSource: string)
      modifies this`errors
      ensures theId in enabled ==> errors == old(errors) + [Diagnostic(theId, theSource, None)]
      ensures theId !in enabled ==> errors == old(errors)
      ensures enabled == old(enabled) && names == old(names) && translate == old(translate)
    {
      if theId !in enabled {
        return;
      }
      errors := errors + [Diagnostic(theId, theSource, None)];
    }

    /** ReportError(id, source, extra): the same, with one extra line. */
    method ReportErrorWithInfo(theId: ErrorId, theSource: string, theExtraInfo: string)
      modifies this`errors
      ensures theId in enabled ==> errors == old(errors) + [Diagnostic(theId, theSource, Some([theExtraInfo]))]
      ensures theId !in enabled ==> errors == old(errors)
      ensures enabled == old(enabled) && names == old(names) && translate == old(translate)
    {
      if theId !in enabled {
        return;
      }
      errors := errors + [Diagnostic(theId, theSource, Some([theExtraInfo]))];
    }

    /** ReportError(id, source, extras): the same, with the given (possibly null) extra lines. */
    method ReportErrorWithLines(theId: ErrorId, theSource: string, theExtraInfo: Option<seq<string>>)
      modifies this`errors
      ensures theId in enabled ==> errors == old(errors) + [Diagnostic(theId, theSource, theExtraInfo)]
      ensures theId !in enabled ==> errors == old(errors)
      ensures enabled == old(enabled) && names == old(names) && translate == old(translate)
    {
      if theId !in enabled {
        return;
      }
      errors := errors + [Diagnostic(theId, theSource, theExtraInfo)];
    }
  }
}

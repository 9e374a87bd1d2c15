/** The selection rules of the CAVE workbench advisor: which perspective the
    first window opens with, which commands are undefined, which action sets
    are removed from the menus, and the once-only creation of the dynamic
    menus.

    The Eclipse registries are sequences in registry order; a removal from a
    registry is reported as the index of the entry removed, in the order the
    removals are made. */
module Workbench {
  import opened Wrappers

  /** A perspective descriptor of the perspective registry. */
  datatype Perspective = Perspective(id: string, labelText: string)

  // ---------------------------------------------------------------------------
  // getSpecifiedPerspective

  /** The character with ASCII upper-case letters mapped to lower case. */
  function FoldCase(c: char): char
  {
    if 'A' <= c <= 'Z' then (c as int - 'A' as int + 'a' as int) as char else c
  }

  /** String.equalsIgnoreCase over ASCII letters. */
  predicate EqualsIgnoreCase(a: string, b: string)
  {
    |a| == |b| && forall k :: 0 <= k < |a| ==> FoldCase(a[k]) == FoldCase(b[k])
  }

  /** The first descriptor with the given id. */
  function FirstWithId(registry: seq<Perspective>, name: string): (r: Option<nat>)
    ensures r.Some? ==> r.value < |registry| && registry[r.value].id == name
    ensures r.Some? ==> forall k :: 0 <= k < r.value ==> registry[k].id != name
    ensures r.None? ==> forall k :: 0 <= k < |registry| ==> registry[k].id != name
  {
    if registry == [] then None
    else if registry[0].id == name then Some(0)
    else match FirstWithId(registry[1..], name)
      case None => None
      case Some(i) => Some(i + 1)
  }

  /** The first descriptor whose label equals the name ignoring case. */
  function FirstWithLabel(registry: seq<Perspective>, name: string): (r: Option<nat>)
    ensures r.Some? ==> r.value < |registry| && EqualsIgnoreCase(name, registry[r.value].labelText)
    ensures r.Some? ==> forall k :: 0 <= k < r.value ==> !EqualsIgnoreCase(name, registry[k].labelText)
    ensures r.None? ==> forall k :: 0 <= k < |registry| ==> !EqualsIgnoreCase(name, registry[k].labelText)
  {
    if registry == [] then None
    else if EqualsIgnoreCase(name, registry[0].labelText) then Some(0)
    else match FirstWithLabel(registry[1..], name)
      case None => None
      case Some(i) => Some(i + 1)
  }

  /** The descriptor a perspective name designates: by id first, by label
      second; no name designates none. */
  function SpecifiedPerspective(registry: seq<Perspective>, name: Option<string>): Option<Perspective>
  {
    if name.None? then None
    else match FirstWithId(registry, name.value)
      case Some(i) => Some(registry[i])
      case None =>
        match FirstWithLabel(registry, name.value)
        case Some(i) => Some(registry[i])
        case None => None
  }

  /** A null name designates no perspective. */
  lemma NullNameDesignatesNothing(registry: seq<Perspective>)
    ensures SpecifiedPerspective(registry, None) == None
  {
  }

  /** An id match anywhere in the registry wins over every label match: the
      result is the first descriptor carrying that id. */
  lemma IdMatchWins(registry: seq<Perspective>, name: string, j: nat)
    requires j < |registry| && registry[j].id == name
    ensures var r := SpecifiedPerspective(registry, Some(name));
            && r.Some? && r.value.id == name
            && exists i :: 0 <= i <= j && r.value == registry[i] && forall k :: 0 <= k < i ==> registry[k].id != name
  {
    var i := FirstWithId(registry, name);
    assert i.Some?;
    assert registry[i.value] == SpecifiedPerspective(registry, Some(name)).value;
  }

  /** With no id match, the first descriptor whose label matches ignoring case
      is designated, and none when no label matches. */
  lemma LabelMatchOtherwise(registry: seq<Perspective>, name: string)
    requires forall k :: 0 <= k < |registry| ==> registry[k].id != name
    ensures var r := SpecifiedPerspective(registry, Some(name));
            && (r.Some? ==> exists i :: 0 <= i < |registry| && r.value == registry[i]
                              && EqualsIgnoreCase(name, registry[i].labelText)
                              && forall k :: 0 <= k < i ==> !EqualsIgnoreCase(name, registry[k].labelText))
            && (r.None? <==> forall k :: 0 <= k < |registry| ==> !EqualsIgnoreCase(name, registry[k].labelText))
  {
    assert FirstWithId(registry, name).None?;
    var l := FirstWithLabel(registry, name);
    if l.Some? {
      assert SpecifiedPerspective(registry, Some(name)).value == registry[l.value];
    }
  }

  // ---------------------------------------------------------------------------
  // getInitialWindowPerspectiveId

  /** The start-up perspective: the one the -perspective argument designates,
      else the one the registry default designates, else none. */
  function InitialPerspective(registry: seq<Perspective>, argument: Option<string>, registryDefault: Option<string>): Option<string>
  {
    match SpecifiedPerspective(registry, argument)
    case Some(d) => Some(d.id)
    case None =>
      match SpecifiedPerspective(registry, registryDefault)
      case Some(d) => Some(d.id)
      case None => None
  }

  lemma SpecifiedIsRegistered(registry: seq<Perspective>, name: Option<string>)
    ensures SpecifiedPerspective(registry, name).Some? ==> SpecifiedPerspective(registry, name).value in registry
  {
    if name.Some? {
      var i := FirstWithId(registry, name.value);
      if i.Some? {
        assert registry[i.value] in registry;
      } else {
        var l := FirstWithLabel(registry, name.value);
        if l.Some? {
          assert registry[l.value] in registry;
        }
      }
    }
  }

  /** The start-up perspective is always the id of a registered descriptor,
      the argument's when it designates one, otherwise the default's. */
  lemma InitialPerspectiveResolution(registry: seq<Perspective>, argument: Option<string>, registryDefault: Option<string>)
    ensures var r := InitialPerspective(registry, argument, registryDefault);
            && (r.Some? ==> exists d :: d in registry && d.id == r.value)
            && (SpecifiedPerspective(registry, argument).Some? ==> r == Some(SpecifiedPerspective(registry, argument).value.id))
            && (SpecifiedPerspective(registry, argument).None? ==>
                  r == (if SpecifiedPerspective(registry, registryDefault).Some?
                        then Some(SpecifiedPerspective(registry, registryDefault).value.id) else None))
  {
    SpecifiedIsRegistered(registry, argument);
    SpecifiedIsRegistered(registry, registryDefault);
  }

  // ---------------------------------------------------------------------------
  // removeExtraCommands

  const CommandPrefixes: seq<string> := ["org.eclipse.jdt", "org.eclipse.debug", "org.eclipse.team"]
  const ExemptCorrectionAssist: string := "org.eclipse.jdt.ui.edit.text.java.correction.assist.proposals"
  const ExemptWatchCommand: string := "org.eclipse.debug.ui.actions.WatchCommand"

  predicate StartsWith(s: string, prefix: string)
  {
    |prefix| <= |s| && s[..|prefix|] == prefix
  }

  /** A command is undefined when its id has one of the prefixes and is not
      one of the two popup-menu commands Eclipse looks up. */
  predicate Undefinable(id: string)
  {
    (exists p :: p in CommandPrefixes && StartsWith(id, p))
    && id != ExemptCorrectionAssist && id != ExemptWatchCommand
  }

  predicate StrictlyIncreasing(s: seq<nat>)
  {
    forall a, b :: 0 <= a < b < |s| ==> s[a] < s[b]
  }

  // ---------------------------------------------------------------------------
  // removeExtraMenus

  const RemovedActionSets: seq<string> := [
    "org.eclipse.search.searchActionSet",
    "org.eclipse.ui.actionSet.keyBindings",
    "org.eclipse.ui.edit.text.actionSet.navigation",
    "org.eclipse.ui.edit.text.actionSet.annotationNavigation",
    "org.eclipse.ui.edit.text.actionSet.convertLineDelimitersTo",
    "org.eclipse.ui.edit.text.actionSet.openExternalFile",
    "org.eclipse.update.ui.softwareUpdates"
  ]

  /** The window advisor made for a window configurer. */
  datatype WindowAdvisor = WindowAdvisor(configurer: nat)

  class VizWorkbenchAdvisor {
    var createdMenus: bool
    /** How many times the dynamic menus have been created. */
    var dynamicMenuCreations: nat

    ghost predicate Valid()
      reads this
    {
      dynamicMenuCreations == (if createdMenus then 1 else 0)
    }

    constructor ()
      ensures Valid() && !createdMenus && dynamicMenuCreations == 0
    {
      createdMenus := false;
      dynamicMenuCreations := 0;
    }

    /** The dynamic menus are created by the first call only. */
    method CreateWorkbenchWindowAdvisor(configurer: nat) returns (advisor: WindowAdvisor)
      requires Valid()
      modifies this
      ensures Valid() && createdMenus && dynamicMenuCreations == 1
      ensures advisor == WindowAdvisor(configurer)
    {
      if !createdMenus {
        createdMenus := true;
        dynamicMenuCreations := dynamicMenuCreations + 1;
      }
      advisor := WindowAdvisor(configurer);
    }

    /** Searches the registry by id, then by label. */
    method GetSpecifiedPerspective(registry: seq<Perspective>, perspective: Option<string>) returns (r: Option<Perspective>)
      ensures r == SpecifiedPerspective(registry, perspective)
    {
      if perspective.Some? {
        var name := perspective.value;
        var i := 0;
        while i < |registry|
          invariant 0 <= i <= |registry|
          invariant forall k :: 0 <= k < i ==> registry[k].id != name
        {
          if name == registry[i].id {
            FirstWithIdAt(registry, name, i);
            return Some(registry[i]);
          }
          i := i + 1;
        }
        i := 0;
        while i < |registry|
          invariant 0 <= i <= |registry|
          invariant forall k :: 0 <= k < i ==> !EqualsIgnoreCase(name, registry[k].labelText)
        {
          if EqualsIgnoreCase(name, registry[i].labelText) {
            FirstWithLabelAt(registry, name, i);
            return Some(registry[i]);
          }
          i := i + 1;
        }
      }
      return None;
    }

    /** The perspective from the program arguments, else the registry
        default, else none; the managed perspectives are looked at without
        effect on the result. */
    method GetInitialWindowPerspectiveId(registry: seq<Perspective>, argument: Option<string>,
                                         registryDefault: Option<string>, managed: seq<string>)
      returns (r: Option<string>)
      ensures r == InitialPerspective(registry, argument, registryDefault)
    {
      var perspective := argument;
      var desc := GetSpecifiedPerspective(registry, perspective);
      if desc.Some? {
        return Some(desc.value.id);
      }
      perspective := registryDefault;
      desc := GetSpecifiedPerspective(registry, perspective);
      if desc.Some? {
        return Some(desc.value.id);
      }
      if |managed| > 0 {
        perspective := Some(managed[0]);
      }
      return None;
    }

    /** Undefines the commands whose ids are undefinable: returns the indices
        of the commands undefined, in registry order. */
    method RemoveExtraCommands(commands: seq<string>) returns (undefined: seq<nat>)
      ensures forall k: nat :: k in undefined <==> k < |commands| && Undefinable(commands[k])
      ensures StrictlyIncreasing(undefined)
    {
      undefined := [];
      var i := 0;
      while i < |commands|
        invariant 0 <= i <= |commands|
        invariant forall k: nat :: k in undefined <==> k < i && Undefinable(commands[k])
        invariant StrictlyIncreasing(undefined)
        invariant forall a :: 0 <= a < |undefined| ==> undefined[a] < i
      {
        var id := commands[i];
        var j := 0;
        var done := false;
        while j < |CommandPrefixes| && !done
          invariant 0 <= j <= |CommandPrefixes|
          invariant !done ==> forall q :: 0 <= q < j ==> !(StartsWith(id, CommandPrefixes[q]) && id != ExemptCorrectionAssist && id != ExemptWatchCommand)
          invariant done ==> Undefinable(id)
          invariant forall k: nat :: k in undefined <==> (k < i && Undefinable(commands[k])) || (done && k == i)
          invariant StrictlyIncreasing(undefined)
          invariant forall a :: 0 <= a < |undefined| ==> undefined[a] <= i
          invariant !done ==> forall a :: 0 <= a < |undefined| ==> undefined[a] < i
        {
          var prefix := CommandPrefixes[j];
          if StartsWith(id, prefix) && id != ExemptCorrectionAssist && id != ExemptWatchCommand {
            undefined := undefined + [i];
            done := true;
          }
          j := j + 1;
        }
        if !done {
          NotUndefinable(id);
        }
        i := i + 1;
      }
    }

    /** Removes the action sets whose ids are on the removal list: returns the
        indices of the action sets removed, in registry order. */
    method RemoveExtraMenus(actionSets: seq<string>) returns (removed: seq<nat>)
      ensures forall k: nat :: k in removed <==> k < |actionSets| && actionSets[k] in RemovedActionSets
      ensures StrictlyIncreasing(removed)
    {
      removed := [];
      var i := 0;
      while i < |actionSets|
        invariant 0 <= i <= |actionSets|
        invariant forall k: nat :: k in removed <==> k < i && actionSets[k] in RemovedActionSets
        invariant StrictlyIncreasing(removed)
        invariant forall a :: 0 <= a < |removed| ==> removed[a] < i
      {
        var found := false;
        var j := 0;
        while j < |RemovedActionSets|
          invariant 0 <= j <= |RemovedActionSets|
          invariant found <==> actionSets[i] in RemovedActionSets[..j]
        {
          assert RemovedActionSets[..j + 1] == RemovedActionSets[..j] + [RemovedActionSets[j]];
          if RemovedActionSets[j] == actionSets[i] {
            found := true;
          }
          j := j + 1;
        }
        assert RemovedActionSets[..j] == RemovedActionSets;
        if found {
          removed := removed + [i];
        }
        i := i + 1;
      }
    }
  }

  lemma FirstWithIdAt(registry: seq<Perspective>, name: string, i: nat)
    requires i < |registry| && registry[i].id == name
    requires forall k :: 0 <= k < i ==> registry[k].id != name
    ensures FirstWithId(registry, name) == Some(i)
  {
    assert FirstWithId(registry, name).Some?;
  }

  lemma FirstWithLabelAt(registry: seq<Perspective>, name: string, i: nat)
    requires i < |registry| && EqualsIgnoreCase(name, registry[i].labelText)
    requires forall k :: 0 <= k < i ==> !EqualsIgnoreCase(name, registry[k].labelText)
    ensures FirstWithLabel(registry, name) == Some(i)
  {
    assert FirstWithLabel(registry, name).Some?;
  }

  lemma NotUndefinable(id: string)
    requires forall q :: 0 <= q < |CommandPrefixes| ==>
               !(StartsWith(id, CommandPrefixes[q]) && id != ExemptCorrectionAssist && id != ExemptWatchCommand)
    ensures !Undefinable(id)
  {
    forall p | p in CommandPrefixes
      ensures !(StartsWith(id, p) && id != ExemptCorrectionAssist && id != ExemptWatchCommand)
    {
      assert p == CommandPrefixes[0] || p == CommandPrefixes[1] || p == CommandPrefixes[2];
    }
  }

  lemma StartsWithConcat(prefix: string, rest: string)
    ensures StartsWith(prefix + rest, prefix)
  {
    assert (prefix + rest)[..|prefix|] == prefix;
  }

  /** Every id in the three namespaces other than the two exempt ones is
      undefined, whatever follows the prefix. */
  lemma PrefixedCommandUndefinable(prefix: string, rest: string)
    requires prefix in CommandPrefixes
    requires prefix + rest != ExemptCorrectionAssist && prefix + rest != ExemptWatchCommand
    ensures Undefinable(prefix + rest)
  {
    StartsWithConcat(prefix, rest);
  }
}

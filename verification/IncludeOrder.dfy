/**
The order of #include lines: an automaton over sections, proved to accept one
regular language of header sequences.
*/
module IncludeOrder {
  datatype Header = CSys | CppSys | LikelyMy | PossibleMy | Other

  type Section = s: int | 0 <= s <= 4

  const INITIAL: Section := 0
  const MY_H: Section := 1
  const C_SECTION: Section := 2
  const CPP: Section := 3
  const OTHER_H: Section := 4

  function TypeName(h: Header): string {
    match h
    case CSys => "C system header"
    case CppSys => "C++ system header"
    case LikelyMy => "header this file implements"
    case PossibleMy => "header this file may implement"
    case Other => "other header"
  }

  function SectionName(s: Section): string {
    if s == INITIAL then "... nothing. (This can't be an error.)"
    else if s == MY_H then "a header this file implements"
    else if s == C_SECTION then "C system header"
    else if s == CPP then "C++ system header"
    else "other header"
  }

  predicate IsMy(h: Header) { h.LikelyMy? || h.PossibleMy? }

  predicate InOrder(s: Section, h: Header) {
    match h
    case CSys => s <= C_SECTION
    case CppSys => s <= CPP
    case _ => true
  }

  function NextSection(s: Section, h: Header): Section {
    match h
    case CSys => if s <= C_SECTION then C_SECTION else s
    case CppSys => if s <= CPP then CPP else s
    case Other => OTHER_H
    case _ => if s <= MY_H then MY_H else OTHER_H
  }

  class IncludeState {
    var section: Section
    var lastHeader: string

    constructor ()
      ensures section == INITIAL && lastHeader == ""
    {
      section, lastHeader := INITIAL, "";
    }

    method ResetSection()
      modifies this
      ensures section == INITIAL && lastHeader == ""
    {
      section := INITIAL;
      lastHeader := "";
    }

    method SetLastHeader(headerPath: string)
      modifies this`lastHeader
      ensures lastHeader == headerPath
    {
      lastHeader := headerPath;
    }

    method CheckNextIncludeOrder(headerType: Header) returns (error: string)
      modifies this
      ensures section == NextSection(old(section), headerType) && old(section) <= section
      ensures error == "" <==> InOrder(old(section), headerType)
      ensures error != "" ==> error == "Found " + TypeName(headerType) + " after " + SectionName(old(section))
      ensures error != "" ==> section == old(section)
      ensures lastHeader == if error != "" || section != old(section) then "" else old(lastHeader)
    {
      var errorMessage := "Found " + TypeName(headerType) + " after " + SectionName(section);
      assert errorMessage[0] == 'F';
      var lastSection := section;
      match headerType {
        case CSys =>
          if section <= C_SECTION {
            section := C_SECTION;
          } else {
            lastHeader := "";
            return errorMessage;
          }
        case CppSys =>
          if section <= CPP {
            section := CPP;
          } else {
            lastHeader := "";
            return errorMessage;
          }
        case LikelyMy =>
          if section <= MY_H { section := MY_H; } else { section := OTHER_H; }
        case PossibleMy =>
          if section <= MY_H { section := MY_H; } else { section := OTHER_H; }
        case Other =>
          section := OTHER_H;
      }
      if lastSection != section {
        lastHeader := "";
      }
      return "";
    }

    /** All the headers of a file up to the next reset; counts the errors. */
    method CheckFile(headers: seq<Header>) returns (errors: nat)
      modifies this
      ensures section == Sections(old(section), headers)
      ensures errors == 0 <==> Accepted(old(section), headers)
      ensures errors == |headers| - |Kept(old(section), headers)|
    {
      errors := 0;
      for i := 0 to |headers|
        invariant Sections(old(section), headers) == Sections(section, headers[i..])
        invariant Accepted(old(section), headers) <==> errors == 0 && Accepted(section, headers[i..])
        invariant |Kept(old(section), headers)| == i - errors + |Kept(section, headers[i..])|
      {
        var message := CheckNextIncludeOrder(headers[i]);
        if message != "" { errors := errors + 1; }
      }
    }
  }

  function Sections(s: Section, hs: seq<Header>): Section
    decreases |hs|
  {
    if hs == [] then s else Sections(NextSection(s, hs[0]), hs[1..])
  }

  predicate Accepted(s: Section, hs: seq<Header>)
    decreases |hs|
  {
    hs == [] || (InOrder(s, hs[0]) && Accepted(NextSection(s, hs[0]), hs[1..]))
  }

  /** The headers that are not reported. */
  function Kept(s: Section, hs: seq<Header>): seq<Header>
    decreases |hs|
  {
    if hs == [] then []
    else (if InOrder(s, hs[0]) then [hs[0]] else []) + Kept(NextSection(s, hs[0]), hs[1..])
  }

  /** Only system headers are ever reported, after these others. */
  lemma MessageReads(s: Section, h: Header)
    requires !InOrder(s, h)
    ensures var what, after := TypeName(h), SectionName(s);
      || (h == CSys && what == "C system header" && after == "C++ system header")
      || (h == CSys && what == "C system header" && after == "other header")
      || (h == CppSys && what == "C++ system header" && after == "other header")
  {
  }

  // ----- the language:  my* c* cpp* (other | my)*,  or what is left of it from a section on

  ghost predicate Split(s: Section, hs: seq<Header>, i: int, j: int, k: int) {
    && 0 <= i <= j <= k <= |hs|
    && (C_SECTION <= s ==> i == 0)
    && (CPP <= s ==> j == 0)
    && (OTHER_H <= s ==> k == 0)
    && (forall n :: 0 <= n < i ==> IsMy(hs[n]))
    && (forall n :: i <= n < j ==> hs[n] == CSys)
    && (forall n :: j <= n < k ==> hs[n] == CppSys)
    && (forall n :: k <= n < |hs| ==> hs[n] == Other || IsMy(hs[n]))
  }

  ghost predicate InLanguage(s: Section, hs: seq<Header>) {
    exists i, j, k :: Split(s, hs, i, j, k)
  }

  lemma {:induction false} AcceptedIsInLanguage(s: Section, hs: seq<Header>)
    requires Accepted(s, hs)
    ensures InLanguage(s, hs)
    decreases |hs|
  {
    if hs == [] {
      assert Split(s, hs, 0, 0, 0);
    } else {
      var h, s' := hs[0], NextSection(s, hs[0]);
      AcceptedIsInLanguage(s', hs[1..]);
      var i, j, k :| Split(s', hs[1..], i, j, k);
      if IsMy(h) && s <= MY_H { assert Split(s, hs, i + 1, j + 1, k + 1); }
      else if h == CSys { assert Split(s, hs, 0, j + 1, k + 1); }
      else if h == CppSys { assert Split(s, hs, 0, 0, k + 1); }
      else { assert Split(s, hs, 0, 0, 0); }
    }
  }

  lemma {:induction false} InLanguageIsAccepted(s: Section, hs: seq<Header>, i: int, j: int, k: int)
    requires Split(s, hs, i, j, k)
    ensures Accepted(s, hs)
    decreases |hs|
  {
    if hs != [] {
      var s' := NextSection(s, hs[0]);
      var i' := if 0 < i then i - 1 else 0;
      var j' := if 0 < j then j - 1 else 0;
      var k' := if 0 < k then k - 1 else 0;
      assert Split(s', hs[1..], i', j', k');
      InLanguageIsAccepted(s', hs[1..], i', j', k');
    }
  }

  /** No header is reported exactly when the headers are in the documented order. */
  lemma OrderIsTheLanguage(s: Section, hs: seq<Header>)
    ensures Accepted(s, hs) <==> InLanguage(s, hs)
  {
    if Accepted(s, hs) { AcceptedIsInLanguage(s, hs); }
    if InLanguage(s, hs) {
      var i, j, k :| Split(s, hs, i, j, k);
      InLanguageIsAccepted(s, hs, i, j, k);
    }
  }

  /** Deleting the reported headers leaves the final section, and nothing more is reported. */
  lemma {:induction false} DeletingReportedSuffices(s: Section, hs: seq<Header>)
    ensures Accepted(s, Kept(s, hs)) && Sections(s, Kept(s, hs)) == Sections(s, hs)
    ensures s <= Sections(s, hs)
    decreases |hs|
  {
    if hs != [] {
      var s' := NextSection(s, hs[0]);
      DeletingReportedSuffices(s', hs[1..]);
      if InOrder(s, hs[0]) { assert Kept(s, hs)[1..] == Kept(s', hs[1..]); }
      else { assert Kept(s, hs) == Kept(s', hs[1..]); }
    }
  }
}

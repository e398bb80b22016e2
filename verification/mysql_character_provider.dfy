/** The rules of the MySQL character provider that do not depend on the
    database: the syntax a new character's name must have, how the stored
    custom name is assembled from it, how the creation procedure's output id
    is read, the table of name-declined reasons, the order in which the
    restricted-name lists are consulted, and the trimming of a shared iff
    template. */
module MysqlCharacterProvider {
  import opened Wrappers
  import opened ByteBuffers

  // ---------------------------------------------------------------------
  // Name syntax

  predicate IsLetter(c: char) {
    'a' <= c <= 'z' || 'A' <= c <= 'Z'
  }

  predicate IsPunctuation(c: char) {
    c == '\'' || c == '-'
  }

  /** A character allowed after the first one of a name part: a lower-case
      letter, an apostrophe or a hyphen. */
  predicate IsPartTail(c: char) {
    'a' <= c <= 'z' || IsPunctuation(c)
  }

  /** What the pattern's \s matches: space, tab, line feed, vertical tab,
      form feed and carriage return. */
  predicate IsSpace(c: char) {
    c == ' ' || c == '\t' || c == '\n' || c == '\U{0B}' || c == '\U{0C}' || c == '\r'
  }

  /** A first name or surname: a letter of either case, then 2 to 15
      characters that are lower-case letters, apostrophes or hyphens. */
  predicate IsNamePart(p: string) {
    3 <= |p| <= 16 && IsLetter(p[0]) && forall i :: 1 <= i < |p| ==> IsPartTail(p[i])
  }

  function PunctuationCount(s: string): (n: nat)
    ensures n <= |s|
  {
    if s == [] then 0 else (if IsPunctuation(s[0]) then 1 else 0) + PunctuationCount(s[1..])
  }

  /** The name pattern of CreateCharacter, clause by clause: the name does not
      start with an apostrophe or a hyphen, has at most three of them in all,
      and is one name part, or a name part, one whitespace character and a
      second name part. */
  predicate MatchesNameSyntax(name: string) {
    && !(|name| > 0 && IsPunctuation(name[0]))
    && PunctuationCount(name) <= 3
    && (|| IsNamePart(name)
        || exists k :: 0 < k < |name| && IsNamePart(name[..k]) && IsSpace(name[k]) && IsNamePart(name[k + 1..]))
  }

  /** The position of the first whitespace character at or after i, or |s|. */
  function FirstSpace(s: string, i: nat): (k: nat)
    requires i <= |s|
    ensures i <= k <= |s|
    ensures k < |s| ==> IsSpace(s[k])
    ensures forall j :: i <= j < k ==> !IsSpace(s[j])
    decreases |s| - i
  {
    if i == |s| || IsSpace(s[i]) then i else FirstSpace(s, i + 1)
  }

  /** Matches the name and returns its two capture groups, the first name
      and the surname (empty when there is none); None when it does not
      match. */
  function ParseName(name: string): (r: Option<(string, string)>)
    ensures r.Some? ==> IsNamePart(r.value.0) && (r.value.1 == [] || IsNamePart(r.value.1))
    ensures r.Some? && r.value.1 == [] ==> name == r.value.0
    ensures r.Some? && r.value.1 != [] ==>
      && |name| == |r.value.0| + 1 + |r.value.1| && IsSpace(name[|r.value.0|])
      && name[..|r.value.0|] == r.value.0 && name[|r.value.0| + 1..] == r.value.1
  {
    if |name| > 0 && IsPunctuation(name[0]) then None
    else if PunctuationCount(name) > 3 then None
    else
      var k := FirstSpace(name, 0);
      if k == |name| then
        if IsNamePart(name) then Some((name, [])) else None
      else if IsNamePart(name[..k]) && IsNamePart(name[k + 1..]) then Some((name[..k], name[k + 1..]))
      else None
  }

  lemma NamePartHasNoSpace(p: string)
    requires IsNamePart(p)
    ensures forall i :: 0 <= i < |p| ==> !IsSpace(p[i])
  {
    forall i | 0 <= i < |p|
      ensures !IsSpace(p[i])
    {
      if i > 0 {
        assert IsPartTail(p[i]);
      }
    }
  }

  /** ParseName accepts exactly the names of the pattern. */
  lemma ParseNameMatchesSyntax(name: string)
    ensures ParseName(name).Some? <==> MatchesNameSyntax(name)
  {
    if MatchesNameSyntax(name) {
      var k := FirstSpace(name, 0);
      if IsNamePart(name) {
        NamePartHasNoSpace(name);
        assert k == |name|;
      } else {
        var j :| 0 < j < |name| && IsNamePart(name[..j]) && IsSpace(name[j]) && IsNamePart(name[j + 1..]);
        NamePartHasNoSpace(name[..j]);
        assert forall i :: 0 <= i < j ==> name[..j][i] == name[i];
        assert k == j;
      }
    }
    if ParseName(name).Some? {
      var k := FirstSpace(name, 0);
      if k < |name| {
        assert 0 < k < |name| && IsNamePart(name[..k]) && IsSpace(name[k]) && IsNamePart(name[k + 1..]);
      }
    }
  }

  /** A name that matches is 3 to 33 characters long. */
  lemma MatchingNameLength(name: string)
    requires MatchesNameSyntax(name)
    ensures 3 <= |name| <= 33
  {
    if !IsNamePart(name) {
      var k :| 0 < k < |name| && IsNamePart(name[..k]) && IsSpace(name[k]) && IsNamePart(name[k + 1..]);
    }
  }

  /** The custom name stored for the character: the first name, and the
      surname after one space when there is one. */
  function CustomName(first: string, last: string): (r: string)
    ensures |r| >= |first| && r[..|first|] == first
    ensures last == [] ==> r == first
    ensures last != [] ==> |r| == |first| + 1 + |last| && r[|first|] == ' ' && r[|first| + 1..] == last
  {
    if last == [] then first else first + " " + last
  }

  /** The custom name is the typed name with its separator, whichever
      whitespace character it was, replaced by a space. */
  lemma CustomNameNormalisesSeparator(name: string)
    requires ParseName(name).Some?
    ensures var (first, last) := ParseName(name).value;
      && |CustomName(first, last)| == |name|
      && name[..|first|] == first
      && (last == [] ==> CustomName(first, last) == name)
      && (last != [] ==> IsSpace(name[|first|]) && CustomName(first, last) == name[..|first|] + " " + name[|first| + 1..])
  {
  }

  // ---------------------------------------------------------------------
  // Creating a character

  /** What the character-creation procedure gave back: the output id, no
      row at all, or an SQL exception. */
  datatype DatabaseOutcome = OutputId(id: uint64) | NoRow | SqlError

  /** The (character id, error string) pair CreateCharacter returns. */
  datatype CreateResult = CreateResult(characterId: uint64, error: string)

  const DeclinedPrefix: string := "name_declined_"

  /** The reasons of the error codes 0 to 17, in code order. */
  const ErrorReasons: seq<string> := [
    "developer", "empty", "fictionally_reserved", "in_use", "internal_error",
    "no_name_generator", "no_template", "not_authorized_for_species",
    "not_creature_template", "not_authorized_for_species", "number", "profane",
    "racially_inappropriate", "reserved", "retry", "syntax", "too_fast",
    "cant_create_avatar"]

  /** The name-declined string of an error code of the creation procedure;
      any code past 17 is an internal error. */
  function CreateErrorString(code: uint32): (s: string)
    ensures |s| > |DeclinedPrefix| && s[..|DeclinedPrefix|] == DeclinedPrefix
    ensures code > 17 ==> s == "name_declined_internal_error"
  {
    DeclinedPrefix + (if code < |ErrorReasons| then ErrorReasons[code] else "internal_error")
  }

  /** Codes 7 and 9 give the same string, as do 4 and every code past 17;
      every other pair of codes up to 17 is told apart. */
  lemma CreateErrorStringCollisions(a: uint32, b: uint32)
    requires a < b
    ensures CreateErrorString(a) == CreateErrorString(b) <==>
      (a == 7 && b == 9) || (a == 4 && b > 17) || (a > 17 && b > 17)
  {
    var reasonA := if a < 18 then ErrorReasons[a] else "internal_error";
    var reasonB := if b < 18 then ErrorReasons[b] else "internal_error";
    assert CreateErrorString(a) == CreateErrorString(b) <==> reasonA == reasonB by {
      assert CreateErrorString(a)[|DeclinedPrefix|..] == reasonA;
      assert CreateErrorString(b)[|DeclinedPrefix|..] == reasonB;
    }
    ReasonsCollide(a, b);
  }

  lemma ReasonsCollide(a: nat, b: nat)
    requires a < b
    ensures (if a < 18 then ErrorReasons[a] else "internal_error") == (if b < 18 then ErrorReasons[b] else "internal_error") <==>
      (a == 7 && b == 9) || (a == 4 && b > 17) || (a > 17 && b > 17)
  {
    var rs := ErrorReasons + ["internal_error"];
    var i := if a < 18 then a else 18;
    var j := if b < 18 then b else 18;
    assert |rs| == 19;
    assert rs[i] == (if a < 18 then ErrorReasons[a] else "internal_error");
    assert rs[j] == (if b < 18 then ErrorReasons[b] else "internal_error");
    DistinctReasons(rs, i, j);
  }

  lemma DistinctReasons(rs: seq<string>, i: nat, j: nat)
    requires rs == ErrorReasons + ["internal_error"] && i <= j < 19
    ensures rs[i] == rs[j] <==> i == j || (i == 7 && j == 9) || (i == 4 && j == 18)
  {
    var lengths := [9, 5, 20, 6, 14, 17, 11, 26, 21, 26, 6, 7, 22, 8, 5, 6, 8, 18, 14];
    var initials := "defiinnnnnnprrrstci";
    assert forall c :: 0 <= c < 19 ==> |rs[c]| == lengths[c] && rs[c][0] == initials[c];
    assert rs[4] == rs[18] && rs[7] == rs[9];
    if rs[i] == rs[j] {
      assert lengths[i] == lengths[j] && initials[i] == initials[j];
    }
  }

  /** CreateCharacter without the database: a name that fails the pattern is
      declined as syntax; otherwise the procedure runs on the first name,
      surname and custom name, and an output id below 1002 is an error code,
      any other id the new character's; no row or an SQL error is an
      internal error. */
  function CreateCharacter(name: string, database: (string, string, string) -> DatabaseOutcome): (r: CreateResult)
    ensures !MatchesNameSyntax(name) ==> r == CreateResult(0, "name_declined_syntax")
    ensures r.characterId != 0 <==> r.error == ""
    ensures r.characterId != 0 ==> r.characterId >= 1002
    ensures r.characterId == 0 ==> |r.error| > |DeclinedPrefix| && r.error[..|DeclinedPrefix|] == DeclinedPrefix
  {
    ParseNameMatchesSyntax(name);
    match ParseName(name)
    case None => CreateResult(0, "name_declined_syntax")
    case Some((first, last)) =>
      match database(first, last, CustomName(first, last))
      case OutputId(id) =>
        if id < 1002 then CreateResult(0, CreateErrorString(id)) else CreateResult(id, "")
      case NoRow => CreateResult(0, "name_declined_internal_error")
      case SqlError => CreateResult(0, "name_declined_internal_error")
  }

  /** A name that fails the pattern never reaches the database: the result
      is the same whatever the database would answer. */
  lemma SyntaxCheckPrecedesDatabase(name: string, db1: (string, string, string) -> DatabaseOutcome,
                                    db2: (string, string, string) -> DatabaseOutcome)
    requires !MatchesNameSyntax(name)
    ensures CreateCharacter(name, db1) == CreateCharacter(name, db2)
  {
  }

  /** A well-formed name is created exactly when the procedure hands back an
      id of 1002 or more, and then with that id. */
  lemma CreatedIffLargeOutputId(name: string, database: (string, string, string) -> DatabaseOutcome)
    requires MatchesNameSyntax(name)
    ensures ParseName(name).Some?
    ensures var (first, last) := ParseName(name).value;
      var outcome := database(first, last, CustomName(first, last));
      (CreateCharacter(name, database).characterId != 0 <==> outcome.OutputId? && outcome.id >= 1002)
      && (outcome.OutputId? && outcome.id >= 1002 ==> CreateCharacter(name, database).characterId == outcome.id)
  {
    ParseNameMatchesSyntax(name);
  }

  // ---------------------------------------------------------------------
  // Restricted names

  /** The five lists of restricted-name patterns loaded from the database. */
  datatype RestrictedNames = RestrictedNames(
    profane: seq<string>,
    reserved: seq<string>,
    fictionallyReserved: seq<string>,
    raciallyInappropriate: seq<string>,
    developer: seq<string>)

  /** The lists in the order IsNameAllowed consults them, each with the
      reason it gives. */
  function Filters(lists: RestrictedNames): (r: seq<(seq<string>, string)>)
    ensures |r| == 5
  {
    [(lists.profane, "name_declined_profane"),
     (lists.reserved, "name_declined_reserved"),
     (lists.fictionallyReserved, "name_declined_fictionally_reserved"),
     (lists.raciallyInappropriate, "name_declined_racially_inappropriate"),
     (lists.developer, "name_declined_developer")]
  }

  /** ASCII lower-casing, as the name is lowered before the search. */
  function ToLower(s: string): (r: string)
    ensures |r| == |s|
    ensures forall i :: 0 <= i < |s| ==> r[i] == (if 'A' <= s[i] <= 'Z' then (s[i] - 'A' + 'a') as char else s[i])
  {
    if s == [] then [] else [if 'A' <= s[0] <= 'Z' then (s[0] - 'A' + 'a') as char else s[0]] + ToLower(s[1..])
  }

  /** Lower-casing a lowered name changes nothing more. */
  lemma ToLowerIdempotent(s: string)
    ensures ToLower(ToLower(s)) == ToLower(s)
  {
  }

  /** Whether some pattern of the list is found in the name; search is the
      regular-expression search, which is not part of this model. */
  predicate Hit(name: string, patterns: seq<string>, search: (string, string) -> bool) {
    exists i :: 0 <= i < |patterns| && search(name, patterns[i])
  }

  /** The reason of the first filter with a hit, if any. */
  function FirstHit(name: string, filters: seq<(seq<string>, string)>, search: (string, string) -> bool): Option<string> {
    if filters == [] then None
    else if Hit(name, filters[0].0, search) then Some(filters[0].1)
    else FirstHit(name, filters[1..], search)
  }

  /** A reason found is that of a filter with a hit, none of whose
      predecessors has one. */
  lemma {:induction false} FirstHitFound(name: string, filters: seq<(seq<string>, string)>,
                                         search: (string, string) -> bool)
    requires FirstHit(name, filters, search).Some?
    ensures exists k ::
      && 0 <= k < |filters| && FirstHit(name, filters, search) == Some(filters[k].1)
      && Hit(name, filters[k].0, search) && forall j :: 0 <= j < k ==> !Hit(name, filters[j].0, search)
  {
    if !Hit(name, filters[0].0, search) {
      var rest := filters[1..];
      FirstHitFound(name, rest, search);
      var k :| 0 <= k < |rest| && FirstHit(name, rest, search) == Some(rest[k].1) &&
        Hit(name, rest[k].0, search) && forall j :: 0 <= j < k ==> !Hit(name, rest[j].0, search);
      assert rest[k] == filters[k + 1];
      assert forall j :: 0 < j < k + 1 ==> filters[j] == rest[j - 1];
    } else {
      assert Hit(name, filters[0].0, search) && FirstHit(name, filters, search) == Some(filters[0].1);
    }
  }

  /** The reason is that of filter k exactly when k has a hit and no filter
      before it has one. */
  lemma FirstHitIsFirst(name: string, filters: seq<(seq<string>, string)>,
                        search: (string, string) -> bool, k: nat)
    requires k < |filters|
    requires forall i, j :: 0 <= i < j < |filters| ==> filters[i].1 != filters[j].1
    ensures FirstHit(name, filters, search) == Some(filters[k].1) <==>
      Hit(name, filters[k].0, search) && forall j :: 0 <= j < k ==> !Hit(name, filters[j].0, search)
  {
    NoHitAnywhere(name, filters, search);
    if FirstHit(name, filters, search).Some? {
      FirstHitFound(name, filters, search);
    }
  }

  lemma {:induction false} NoHitAnywhere(name: string, filters: seq<(seq<string>, string)>, search: (string, string) -> bool)
    ensures FirstHit(name, filters, search).None? <==>
      forall j :: 0 <= j < |filters| ==> !Hit(name, filters[j].0, search)
  {
    if filters != [] {
      NoHitAnywhere(name, filters[1..], search);
      assert forall j :: 0 < j < |filters| ==> filters[j] == filters[1..][j - 1];
    }
  }

  /** IsNameAllowed's answer: the reason of the first list with a pattern
      found in the lowered name, or allowed with the reason " ". */
  function NameVerdict(name: string, lists: RestrictedNames, search: (string, string) -> bool): (r: (bool, string))
    ensures r.0 <==> r.1 == " "
    ensures !r.0 ==> exists k :: 0 <= k < 5 && r.1 == Filters(lists)[k].1 && Hit(ToLower(name), Filters(lists)[k].0, search)
  {
    var hit := FirstHit(ToLower(name), Filters(lists), search);
    if hit.None? then (true, " ")
    else
      FirstHitFound(ToLower(name), Filters(lists), search);
      (false, hit.value)
  }

  /** A name is allowed exactly when no pattern of any list is found in it;
      a refused name carries the reason of the first list, in the order
      profane, reserved, fictionally reserved, racially inappropriate,
      developer, that has a hit. */
  lemma NameVerdictPriority(name: string, lists: RestrictedNames, search: (string, string) -> bool, k: nat)
    requires k < 5
    ensures NameVerdict(name, lists, search).0 <==>
      forall j :: 0 <= j < 5 ==> !Hit(ToLower(name), Filters(lists)[j].0, search)
    ensures NameVerdict(name, lists, search) == (false, Filters(lists)[k].1) <==>
      Hit(ToLower(name), Filters(lists)[k].0, search) &&
      forall j :: 0 <= j < k ==> !Hit(ToLower(name), Filters(lists)[j].0, search)
  {
    var filters := Filters(lists);
    NoHitAnywhere(ToLower(name), filters, search);
    FirstHitIsFirst(ToLower(name), filters, search, k);
  }

  method AnyHit(name: string, patterns: seq<string>, search: (string, string) -> bool) returns (hit: bool)
    ensures hit == Hit(name, patterns, search)
  {
    for i := 0 to |patterns|
      invariant forall j :: 0 <= j < i ==> !search(name, patterns[j])
    {
      if search(name, patterns[i]) {
        return true;
      }
    }
    return false;
  }

  method IsNameAllowed(name: string, lists: RestrictedNames, search: (string, string) -> bool)
    returns (allowed: bool, reason: string)
    ensures (allowed, reason) == NameVerdict(name, lists, search)
  {
    var lowered := ToLower(name);
    ghost var filters := Filters(lists);
    var hit := AnyHit(lowered, lists.profane, search);
    if hit {
      return false, "name_declined_profane";
    }
    assert FirstHit(lowered, filters, search) == FirstHit(lowered, filters[1..], search);
    hit := AnyHit(lowered, lists.reserved, search);
    if hit {
      return false, "name_declined_reserved";
    }
    assert FirstHit(lowered, filters[1..], search) == FirstHit(lowered, filters[2..], search);
    hit := AnyHit(lowered, lists.fictionallyReserved, search);
    if hit {
      return false, "name_declined_fictionally_reserved";
    }
    assert FirstHit(lowered, filters[2..], search) == FirstHit(lowered, filters[3..], search);
    hit := AnyHit(lowered, lists.raciallyInappropriate, search);
    if hit {
      return false, "name_declined_racially_inappropriate";
    }
    assert FirstHit(lowered, filters[3..], search) == FirstHit(lowered, filters[4..], search);
    hit := AnyHit(lowered, lists.developer, search);
    if hit {
      return false, "name_declined_developer";
    }
    assert FirstHit(lowered, filters[4..], search) == FirstHit(lowered, filters[5..], search);
    return true, " ";
  }

  // ---------------------------------------------------------------------
  // Iff templates

  /** A template longer than 30 characters loses the 7 characters from
      offset 23 on; a shorter one is kept as it is. */
  function IffTemplateTrim(template: string): (r: string)
    ensures |template| > 30 ==> |r| == |template| - 7 && r[..23] == template[..23] && r[23..] == template[30..]
    ensures |template| <= 30 ==> r == template
  {
    if |template| > 30 then template[..23] + template[30..] else template
  }

  /** The 7 characters are the "shared_" of a shared player template, so
      the trim turns it into the template's non-shared name. */
  lemma IffTemplateTrimDropsShared(species: string)
    ensures IffTemplateTrim("object/creature/player/shared_" + species + ".iff") ==
            "object/creature/player/" + species + ".iff"
  {
    var prefix := "object/creature/player/";
    var shared := prefix + "shared_";
    var suffix := species + ".iff";
    assert |prefix| == 23 && |shared| == 30;
    assert shared[..23] == prefix;
    var t := shared + suffix;
    assert t == "object/creature/player/shared_" + species + ".iff";
    assert t[..23] == prefix && t[30..] == suffix;
  }
}

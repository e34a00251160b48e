/**
 * NodeAdapter: the wrapper around a Jackson JSON tree that the router,
 * build and OTP configuration files are read through. Every parameter a
 * reader asks for is recorded, so that the fields nobody asked for can be
 * listed with their full dotted paths; required parameters that are
 * missing, enum values that are not legal and malformed locales are
 * reported as configuration errors.
 *
 * The adapters of one configuration file form a tree. The model keeps
 * them in one arena, a ConfigTree, where an adapter is an index into the
 * node list and a child always sits after its parent.
 */
module NodeAdapters {
  import opened Wrappers
  import opened JavaStrings

  // ---------------------------------------------------------------- JSON

  /** A Jackson JSON tree; Missing is Jackson's MissingNode, the answer for a field that is not there. */
  datatype Json =
    | Missing
    | Null
    | Bool(b: bool)
    | Number(n: int)
    | Text(s: string)
    | Arr(elems: seq<Json>)
    | Obj(fields: seq<Field>)

  datatype Field = Field(name: string, value: Json)

  /** JsonNode.has: an object with a field of that name, whatever its value. */
  predicate Has(j: Json, name: string) {
    j.Obj? && exists k :: 0 <= k < |j.fields| && j.fields[k].name == name
  }

  /** The index of the first field of that name, or -1. */
  function FieldIndex(fields: seq<Field>, name: string): (r: int)
    ensures -1 <= r < |fields|
    ensures r == -1 <==> forall k :: 0 <= k < |fields| ==> fields[k].name != name
    ensures r >= 0 ==> fields[r].name == name && forall k :: 0 <= k < r ==> fields[k].name != name
  {
    if fields == [] then -1
    else if fields[0].name == name then 0
    else
      var k := FieldIndex(fields[1..], name);
      if k == -1 then -1 else k + 1
  }

  /** JsonNode.path: the field's value, or Missing when the node has no such field. */
  function Get(j: Json, name: string): (r: Json)
    ensures !Has(j, name) ==> r == Missing
    ensures Has(j, name) ==> exists k :: 0 <= k < |j.fields| && j.fields[k].name == name && r == j.fields[k].value
  {
    if !j.Obj? then Missing
    else
      var k := FieldIndex(j.fields, name);
      if k == -1 then Missing else j.fields[k].value
  }

  /**
   * A parsed tree, as Jackson builds one: no field of an object holds the
   * missing node, and an object holds at most one field of each name.
   */
  predicate Parsed(j: Json) {
    j.Obj? ==>
      (forall k :: 0 <= k < |j.fields| ==> j.fields[k].value != Missing)
      && (forall k, l :: 0 <= k < l < |j.fields| ==> j.fields[k].name != j.fields[l].name)
  }

  /**
   * In a parsed tree, path gives the missing node exactly when has says the
   * field is not there, and otherwise the value of the one field of that name.
   */
  lemma GetMissingIffAbsent(j: Json, name: string)
    requires Parsed(j)
    ensures Get(j, name) == Missing <==> !Has(j, name)
    ensures Has(j, name) ==> forall k :: 0 <= k < |j.fields| && j.fields[k].name == name ==> Get(j, name) == j.fields[k].value
  {
  }

  /** What iterating over a node yields: an array's elements, an object's values, nothing otherwise. */
  function Elements(j: Json): (r: seq<Json>)
    ensures j.Arr? ==> r == j.elems
    ensures j.Obj? ==> |r| == |j.fields| && forall k :: 0 <= k < |r| ==> r[k] == j.fields[k].value
    ensures !j.Arr? && !j.Obj? ==> r == []
  {
    match j
    case Arr(elems) => elems
    case Obj(fields) => seq(|fields|, k requires 0 <= k < |fields| => fields[k].value)
    case _ => []
  }

  /** JsonNode.asText: the text, number or boolean as a string, "null" for null, "" otherwise. */
  function AsText(j: Json): string {
    match j
    case Text(s) => s
    case Number(n) => IntToString(n)
    case Bool(b) => if b then "true" else "false"
    case Null => "null"
    case _ => ""
  }

  /** JsonNode.asText(default): the default for a missing or null node. */
  function AsTextOr(j: Json, default: string): (r: string)
    ensures j.Missing? || j.Null? ==> r == default
    ensures j.Text? ==> r == j.s
  {
    if j.Missing? || j.Null? then default else AsText(j)
  }

  // ---------------------------------------------------------------- paths

  /** fullPath: the name alone at the root, otherwise the context path, a dot and the name. */
  function FullPath(contextPath: Option<string>, name: string): string {
    match contextPath
    case None => name
    case Some(p) => p + "." + name
  }

  /** A full path ends in the name; below the root it starts with the context path and a dot. */
  lemma FullPathShape(contextPath: Option<string>, name: string)
    ensures var r := FullPath(contextPath, name);
      && EndsWith(r, name)
      && (contextPath.None? ==> r == name)
      && (contextPath.Some? ==>
            |r| == |contextPath.value| + 1 + |name|
            && StartsWith(r, contextPath.value) && r[|contextPath.value|] == '.')
  {
  }

  /** A child's path for b is its parent's path for "a.b": paths nest by dots. */
  lemma FullPathNests(contextPath: Option<string>, a: string, b: string)
    ensures FullPath(Some(FullPath(contextPath, a)), b) == FullPath(contextPath, a + "." + b)
  {
    if contextPath.Some? {
      var p := contextPath.value;
      assert (p + "." + a) + "." + b == p + "." + (a + "." + b);
    }
  }

  /** Under one context, different names get different paths. */
  lemma FullPathInjective(contextPath: Option<string>, a: string, b: string)
    requires FullPath(contextPath, a) == FullPath(contextPath, b)
    ensures a == b
  {
    if contextPath.Some? {
      var p := contextPath.value;
      var r := FullPath(contextPath, a);
      FullPathShape(contextPath, a);
      assert a == r[|p| + 1..];
      assert b == r[|p| + 1..];
    }
  }

  /** asList's name for the element at index k: "[1]", "[2]", … counting from one. */
  function ElementName(k: nat): (r: string)
    ensures |r| >= 3 && r[0] == '[' && r[|r| - 1] == ']'
  {
    "[" + IntToString(k + 1) + "]"
  }

  /** Different elements get different names. */
  lemma ElementNamesDistinct(k: nat, m: nat)
    requires k != m
    ensures ElementName(k) != ElementName(m)
  {
    var a := IntToString(k + 1);
    var b := IntToString(m + 1);
    if ElementName(k) == ElementName(m) {
      assert a == ElementName(k)[1..|ElementName(k)| - 1];
      assert b == ElementName(m)[1..|ElementName(m)| - 1];
      IntToStringInjective(k + 1, m + 1);
    }
  }

  // ---------------------------------------------------------------- enums

  /**
   * The first enum constant whose upper-cased name equals the upper-cased
   * value: the stream filter and findFirst of the private asEnum.
   */
  function FindEnum(constants: seq<string>, value: string): (r: Option<nat>)
    ensures r.Some? ==>
              && r.value < |constants|
              && ToUpper(constants[r.value]) == ToUpper(value)
              && forall k :: 0 <= k < r.value ==> ToUpper(constants[k]) != ToUpper(value)
    ensures r.None? ==> forall k :: 0 <= k < |constants| ==> ToUpper(constants[k]) != ToUpper(value)
  {
    if constants == [] then None
    else if ToUpper(constants[0]) == ToUpper(value) then Some(0)
    else
      match FindEnum(constants[1..], value)
      case None => None
      case Some(k) => Some(k + 1)
  }

  /** toLowerCase then toUpperCase is toUpperCase. */
  lemma UpperOfLower(s: string)
    ensures ToUpper(ToLower(s)) == ToUpper(s)
  {
    assert forall i :: 0 <= i < |s| ==> UpperChar(LowerChar(s[i])) == UpperChar(s[i]);
  }

  /** The match ignores case: a value, its upper-case and its lower-case form find the same constant. */
  lemma EnumMatchIgnoresCase(constants: seq<string>, value: string)
    ensures FindEnum(constants, ToUpper(value)) == FindEnum(constants, value)
    ensures FindEnum(constants, ToLower(value)) == FindEnum(constants, value)
  {
    ToUpperIdempotent(value);
    UpperOfLower(value);
    EnumSameKey(constants, ToUpper(value), value);
    EnumSameKey(constants, ToLower(value), value);
  }

  /** Values with the same upper-case form find the same constant. */
  lemma {:induction false} EnumSameKey(constants: seq<string>, a: string, b: string)
    requires ToUpper(a) == ToUpper(b)
    ensures FindEnum(constants, a) == FindEnum(constants, b)
  {
    if constants != [] {
      EnumSameKey(constants[1..], a, b);
    }
  }

  /** Every constant's own name is accepted, as that constant or an earlier one equal to it but for case. */
  lemma EnumNameAccepted(constants: seq<string>, i: nat)
    requires i < |constants|
    ensures FindEnum(constants, constants[i]).Some? && FindEnum(constants, constants[i]).value <= i
  {
  }

  // ---------------------------------------------------------------- locales

  /** The characters of the pattern "[-_ ]+" asLocale splits on. */
  const LocaleSeparators: set<char> := {'-', '_', ' '}

  /** java.util.Locale as its language, country and variant parts. */
  datatype Locale = Locale(language: string, country: string, variant: string)

  /**
   * A locale from one, two or three parts; None for any other count. The
   * Locale constructors store the language in lower case and the country
   * in upper case, and keep the variant as given.
   */
  function LocaleOfParts(parts: seq<string>): (r: Option<Locale>)
    ensures r.Some? <==> 1 <= |parts| <= 3
    ensures r.Some? ==> r.value.language == ToLower(parts[0])
    ensures r.Some? && |parts| >= 2 ==> r.value.country == ToUpper(parts[1])
    ensures r.Some? && |parts| == 3 ==> r.value.variant == parts[2]
    ensures r.Some? && |parts| < 3 ==> r.value.variant == ""
    ensures r.Some? && |parts| < 2 ==> r.value.country == ""
  {
    if |parts| == 1 then Some(Locale(ToLower(parts[0]), "", ""))
    else if |parts| == 2 then Some(Locale(ToLower(parts[0]), ToUpper(parts[1]), ""))
    else if |parts| == 3 then Some(Locale(ToLower(parts[0]), ToUpper(parts[1]), parts[2]))
    else None
  }

  /** Case mapping neither adds nor removes a locale separator. */
  lemma CaseKeepsSeparators(t: string)
    ensures NoneIn(t, LocaleSeparators) ==> NoneIn(ToLower(t), LocaleSeparators) && NoneIn(ToUpper(t), LocaleSeparators)
  {
  }

  /** A locale's language is already lower case and its country already upper case. */
  lemma LocaleIsNormalised(parts: seq<string>)
    requires LocaleOfParts(parts).Some?
    ensures var l := LocaleOfParts(parts).value;
      ToLower(l.language) == l.language && ToUpper(l.country) == l.country
  {
    var l := LocaleOfParts(parts).value;
    assert forall i :: 0 <= i < |l.language| ==> LowerChar(LowerChar(parts[0][i])) == LowerChar(parts[0][i]);
    if |parts| >= 2 {
      assert forall i :: 0 <= i < |l.country| ==> UpperChar(UpperChar(parts[1][i])) == UpperChar(parts[1][i]);
    }
  }

  /**
   * The text of asLocale split on runs of '-', '_' and space: a locale
   * whose parts hold no separator, or None when the split does not give
   * one to three parts. Text without any separator is a language alone.
   */
  function ParseLocale(text: string): (r: Option<Locale>)
    ensures r.Some? ==>
              && NoneIn(r.value.language, LocaleSeparators)
              && NoneIn(r.value.country, LocaleSeparators)
              && NoneIn(r.value.variant, LocaleSeparators)
    ensures NoneIn(text, LocaleSeparators) ==> r == Some(Locale(ToLower(text), "", ""))
  {
    var parts := Split(text, LocaleSeparators, true);
    CaseKeepsSeparators(if parts == [] then "" else parts[0]);
    CaseKeepsSeparators(if |parts| < 2 then "" else parts[1]);
    LocaleOfParts(parts)
  }

  /** A separator preceded by none is the first one. */
  lemma {:induction false} IndexOfAnyAt(s: string, seps: set<char>, i: nat)
    requires i < |s| && s[i] in seps && NoneIn(s[..i], seps)
    ensures IndexOfAny(s, seps) == i
  {
    if i > 0 {
      assert s[..i][0] == s[0];
      assert s[1..][..i - 1] == s[..i][1..];
      IndexOfAnyAt(s[1..], seps, i - 1);
    }
  }

  /** The first separator in parts joined by sep is the one right after the first part. */
  lemma JoinFirstSeparator(parts: seq<string>, sep: char, seps: set<char>)
    requires sep in seps && |parts| >= 2
    requires forall k :: 0 <= k < |parts| ==> NoneIn(parts[k], seps)
    ensures var s := Join(parts, sep);
      && IndexOfAny(s, seps) == |parts[0]|
      && s[|parts[0]| + 1..] == Join(parts[1..], sep)
  {
    var s := Join(parts, sep);
    var p := parts[0];
    assert s == p + [sep] + Join(parts[1..], sep);
    assert s[..|p|] == p;
    IndexOfAnyAt(s, seps, |p|);
  }

  /** Splitting separator-free parts joined by one separator gives the parts back. */
  lemma {:induction false} PiecesOfJoin(parts: seq<string>, sep: char, seps: set<char>)
    requires sep in seps && |parts| >= 1
    requires forall k :: 0 <= k < |parts| ==> NoneIn(parts[k], seps)
    ensures Pieces(Join(parts, sep), seps) == parts
    decreases |parts|
  {
    if |parts| >= 2 {
      var s := Join(parts, sep);
      var n := |parts[0]|;
      JoinFirstSeparator(parts, sep, seps);
      PiecesUnfold(s, seps, n);
      PiecesOfJoin(parts[1..], sep, seps);
      assert s[..n] == parts[0] by {
        JoinCons(parts[0], parts[1..], sep);
        assert parts == [parts[0]] + parts[1..];
      }
      assert parts == [parts[0]] + parts[1..];
    }
  }

  /** The empty strings after the first dropped from parts that have none. */
  lemma {:induction false} NonEmptyKeeps(parts: seq<string>)
    requires forall k :: 0 <= k < |parts| ==> parts[k] != ""
    ensures NonEmpty(parts) == parts
  {
    if parts != [] {
      NonEmptyKeeps(parts[1..]);
      assert parts == [parts[0]] + parts[1..];
    }
  }

  /**
   * Splitting on runs of separators undoes joining non-empty,
   * separator-free parts with any one separator.
   */
  lemma SplitOfJoin(parts: seq<string>, sep: char, seps: set<char>)
    requires sep in seps && |parts| >= 1
    requires forall k :: 0 <= k < |parts| ==> parts[k] != "" && NoneIn(parts[k], seps)
    ensures Split(Join(parts, sep), seps, true) == parts
  {
    var s := Join(parts, sep);
    if |parts| == 1 {
      assert s == parts[0];
    } else {
      JoinFirstSeparator(parts, sep, seps);
      assert !NoneIn(s, seps);
      PiecesOfJoin(parts, sep, seps);
      NonEmptyKeeps(parts[1..]);
      assert [parts[0]] + parts[1..] == parts;
    }
  }

  /**
   * A locale written as one to three non-empty, separator-free parts
   * joined by '-', '_' or space parses to the locale of those parts; four
   * or more parts are not a locale. Parts already in normal form (a lower
   * case language, an upper case country) come back exactly.
   */
  lemma LocaleRoundTrip(parts: seq<string>, sep: char)
    requires sep in LocaleSeparators && |parts| >= 1
    requires forall k :: 0 <= k < |parts| ==> parts[k] != "" && NoneIn(parts[k], LocaleSeparators)
    ensures ParseLocale(Join(parts, sep)) == LocaleOfParts(parts)
    ensures ParseLocale(Join(parts, sep)).Some? <==> |parts| <= 3
    ensures |parts| <= 3 && ToLower(parts[0]) == parts[0] && (|parts| >= 2 ==> ToUpper(parts[1]) == parts[1]) ==>
      ParseLocale(Join(parts, sep))
        == Some(Locale(parts[0], if |parts| >= 2 then parts[1] else "", if |parts| == 3 then parts[2] else ""))
  {
    SplitOfJoin(parts, sep, LocaleSeparators);
  }

  /** "en_GB" is English in Great Britain. */
  lemma LocaleWithCountry()
    ensures ParseLocale("en_GB") == Some(Locale("en", "GB", ""))
  {
    assert Join(["en", "GB"], '_') == "en_GB";
    assert ToLower("en") == "en" && ToUpper("GB") == "GB";
    LocaleRoundTrip(["en", "GB"], '_');
  }

  /** "EN-gb" is English in Great Britain too: the case of the parts is normalised. */
  lemma LocaleCaseNormalised()
    ensures ParseLocale("EN-gb") == Some(Locale("en", "GB", ""))
  {
    assert Join(["EN", "gb"], '-') == "EN-gb";
    assert ToLower("EN") == "en" && ToUpper("gb") == "GB";
    LocaleRoundTrip(["EN", "gb"], '-');
  }

  /** Four parts are no locale. */
  lemma FourPartsRejected()
    ensures ParseLocale("a_b_c_d") == None
  {
    assert Join(["a", "b", "c", "d"], '_') == "a_b_c_d";
    LocaleRoundTrip(["a", "b", "c", "d"], '_');
  }

  // ---------------------------------------------------------------- the adapter tree

  /**
   * One adapter: its JSON node, its path from the root (none at the root),
   * the names asked for so far and the indexes of the children it keeps.
   */
  datatype Node = Node(json: Json, contextPath: Option<string>, parameterNames: seq<string>, children: seq<nat>)

  /** OtpAppException, by the message it carries. */
  datatype ConfigError =
    | RequiredParameterMissing(path: string, source: string)
    | IllegalEnumValue(path: string, value: string, legal: seq<string>, source: string)
    | InvalidLocale(path: string, source: string)

  /** The adapter asList creates for element k of the parent's node. */
  function ListChild(parent: Node, k: nat): Node
    requires k < |Elements(parent.json)|
  {
    Node(Elements(parent.json)[k], Some(FullPath(parent.contextPath, ElementName(k))), [], [])
  }

  /** The adapters asList creates, one per element, in order. */
  function ListChildren(parent: Node): (r: seq<Node>)
    ensures |r| == |Elements(parent.json)|
    ensures forall k :: 0 <= k < |r| ==> r[k] == ListChild(parent, k)
  {
    seq(|Elements(parent.json)|, k requires 0 <= k < |Elements(parent.json)| => ListChild(parent, k))
  }

  /** The loop of asList: the new adapters and the indexes they get from base on. */
  method ListAdapters(parent: Node, base: nat) returns (added: seq<Node>, result: seq<nat>)
    ensures added == ListChildren(parent)
    ensures |result| == |added| && forall k :: 0 <= k < |result| ==> result[k] == base + k
  {
    var elems := Elements(parent.json);
    added := [];
    result := [];
    var i := 0;
    while i < |elems|
      invariant 0 <= i <= |elems| && |result| == i && |added| == i
      invariant forall k :: 0 <= k < i ==> result[k] == base + k
      invariant forall k :: 0 <= k < i ==> added[k] == ListChild(parent, k)
    {
      var child := Node(elems[i], Some(FullPath(parent.contextPath, ElementName(i))), [], []);
      added := added + [child];
      result := result + [base + i];
      i := i + 1;
    }
  }

  /** The unused-parameter entry for a field: its full path, a colon and its rendered value. */
  function Entry(node: Node, f: Field, render: Json -> string): string {
    FullPath(node.contextPath, f.name) + ":" + render(f.value)
  }

  /** The entries of the first fields of an object whose names were never asked for, in field order. */
  function OwnUnused(node: Node, fields: seq<Field>, render: Json -> string): (r: seq<string>)
    ensures |r| <= |fields|
  {
    if fields == [] then []
    else
      var f := fields[|fields| - 1];
      OwnUnused(node, fields[..|fields| - 1], render)
      + (if f.name in node.parameterNames then [] else [Entry(node, f, render)])
  }

  /** The field loop of unusedParams: an entry for each field whose name was never asked for. */
  method UnusedFields(node: Node, render: Json -> string) returns (own: seq<string>)
    ensures own == OwnUnused(node, FieldsOf(node.json), render)
  {
    var fields := FieldsOf(node.json);
    own := [];
    var i := 0;
    while i < |fields|
      invariant 0 <= i <= |fields|
      invariant own == OwnUnused(node, fields[..i], render)
    {
      if fields[i].name !in node.parameterNames {
        own := own + [FullPath(node.contextPath, fields[i].name) + ":" + render(fields[i].value)];
      }
      assert fields[..i + 1][..i] == fields[..i];
      i := i + 1;
    }
    assert fields[..i] == fields;
  }

  /** The fields of a node, none for anything but an object. */
  function FieldsOf(j: Json): seq<Field> {
    if j.Obj? then j.fields else []
  }

  /** An entry is listed exactly for a field whose name was never asked for. */
  lemma {:induction false} OwnUnusedMembers(node: Node, fields: seq<Field>, render: Json -> string, x: string)
    ensures x in OwnUnused(node, fields, render) <==>
              exists k :: 0 <= k < |fields| && fields[k].name !in node.parameterNames && x == Entry(node, fields[k], render)
  {
    if fields != [] {
      var init := fields[..|fields| - 1];
      var last := |fields| - 1;
      OwnUnusedMembers(node, init, render, x);
      if x in OwnUnused(node, fields, render) {
        if x in OwnUnused(node, init, render) {
          var k :| 0 <= k < |init| && init[k].name !in node.parameterNames && x == Entry(node, init[k], render);
          assert fields[k] == init[k];
        } else {
          assert fields[last].name !in node.parameterNames && x == Entry(node, fields[last], render);
        }
      } else {
        forall k | 0 <= k < |fields| && fields[k].name !in node.parameterNames
          ensures x != Entry(node, fields[k], render)
        {
          if k < last {
            assert fields[k] == init[k];
          }
        }
      }
    }
  }

  /** Asking for more names never adds an entry: the unused list only shrinks. */
  lemma {:induction false} MoreNamesFewerUnused(node: Node, fields: seq<Field>, render: Json -> string, names: seq<string>)
    ensures multiset(OwnUnused(node.(parameterNames := node.parameterNames + names), fields, render))
            <= multiset(OwnUnused(node, fields, render))
  {
    if fields != [] {
      MoreNamesFewerUnused(node, fields[..|fields| - 1], render, names);
    }
  }

  /** Every child index points after its parent and into the arena, and there is a root. */
  ghost predicate WellFormed(ns: seq<Node>) {
    |ns| > 0
    && forall i, k :: 0 <= i < |ns| && 0 <= k < |ns[i].children| ==> i < ns[i].children[k] < |ns|
  }

  /** The arena after adapter n records name as asked for. */
  function Recorded(ns: seq<Node>, n: nat, name: string): (r: seq<Node>)
    requires n < |ns|
    ensures |r| == |ns| && r[n].parameterNames == ns[n].parameterNames + [name]
    ensures forall i :: 0 <= i < |ns| ==> r[i].children == ns[i].children
  {
    ns[n := ns[n].(parameterNames := ns[n].parameterNames + [name])]
  }

  /** The arena with new adapters at its end, all kept as children of adapter n. */
  function Adopted(ns: seq<Node>, n: nat, added: seq<Node>): (r: seq<Node>)
    requires n < |ns|
    ensures |r| == |ns| + |added| && r[|ns|..] == added
    ensures r[n].children == ns[n].children + seq(|added|, k => |ns| + k)
  {
    ns[n := ns[n].(children := ns[n].children + seq(|added|, k => |ns| + k))] + added
  }

  /** Recording a name leaves the tree shape alone. */
  lemma RecordKeepsWellFormed(ns: seq<Node>, n: nat, name: string)
    requires WellFormed(ns) && n < |ns|
    ensures WellFormed(Recorded(ns, n, name))
  {
  }

  /** New childless adapters at the end, kept by adapter n, keep every child after its parent. */
  lemma AdoptKeepsWellFormed(ns: seq<Node>, n: nat, added: seq<Node>)
    requires WellFormed(ns) && n < |ns|
    requires forall k :: 0 <= k < |added| ==> added[k].children == []
    ensures WellFormed(Adopted(ns, n, added))
  {
    var r := Adopted(ns, n, added);
    forall i | |ns| <= i < |r|
      ensures r[i].children == []
    {
      assert r[i] == added[i - |ns|];
    }
    forall i, k | 0 <= i < |ns| && 0 <= k < |r[i].children|
      ensures i < r[i].children[k] < |r|
    {
      if i != n || k < |ns[n].children| {
        assert r[i].children[k] == ns[i].children[k];
      }
    }
  }

  /** A new childless adapter at the end that nobody keeps. */
  lemma AppendKeepsWellFormed(ns: seq<Node>, node: Node)
    requires WellFormed(ns) && node.children == []
    ensures WellFormed(ns + [node])
  {
    var r := ns + [node];
    assert forall i :: 0 <= i < |ns| ==> r[i] == ns[i];
  }

  /** The arena of adapters of one configuration source. */
  class ConfigTree {
    /** Where the configuration came from: "DEFAULT", a file name or the serialized graph. */
    const source: string
    var nodes: seq<Node>

    /** There is a root, and every child sits after its parent. */
    ghost predicate Valid()
      reads this
    {
      WellFormed(nodes)
    }

    /** The public constructor: a root adapter with no context path, nothing asked for yet. */
    constructor(root: Json, source: string)
      ensures this.source == source && nodes == [Node(root, None, [], [])]
      ensures Valid()
    {
      this.source := source;
      nodes := [Node(root, None, [], [])];
    }

    /** param: records the name as asked for and gives the field, or Missing. */
    method Param(n: nat, name: string) returns (j: Json)
      requires Valid() && n < |nodes|
      modifies this
      ensures Valid()
      ensures j == Get(old(nodes[n].json), name)
      ensures nodes == Recorded(old(nodes), n, name)
    {
      j := Get(nodes[n].json, name);
      RecordKeepsWellFormed(nodes, n, name);
      nodes := Recorded(nodes, n, name);
    }

    /**
     * path: the child adapter for a field, at the end of the arena. The
     * name is recorded by param, and once more when the field is there;
     * the child is kept for the unused-parameter listing only then.
     */
    method Path(n: nat, name: string) returns (child: nat)
      requires Valid() && n < |nodes|
      modifies this
      ensures Valid()
      ensures child == old(|nodes|)
      ensures var j := Get(old(nodes[n].json), name);
        var node := Node(j, Some(FullPath(old(nodes[n].contextPath), name)), [], []);
        var recorded := Recorded(old(nodes), n, name);
        nodes == if j == Missing then recorded + [node] else Adopted(Recorded(recorded, n, name), n, [node])
    {
      var j := Param(n, name);
      child := |nodes|;
      var node := Node(j, Some(FullPath(nodes[n].contextPath, name)), [], []);
      if !j.Missing? {
        RecordKeepsWellFormed(nodes, n, name);
        nodes := Recorded(nodes, n, name);
        AdoptKeepsWellFormed(nodes, n, [node]);
        nodes := Adopted(nodes, n, [node]);
      } else {
        AppendKeepsWellFormed(nodes, node);
        nodes := nodes + [node];
      }
    }

    /**
     * asList: one child adapter per element, named "[1]", "[2]", … under
     * this adapter's path, all kept as children and returned in order.
     */
    method AsList(n: nat) returns (result: seq<nat>)
      requires Valid() && n < |nodes|
      modifies this
      ensures Valid()
      ensures |result| == |Elements(old(nodes[n].json))|
      ensures forall k :: 0 <= k < |result| ==> result[k] == old(|nodes|) + k
      ensures nodes == Adopted(old(nodes), n, ListChildren(old(nodes[n])))
    {
      var added;
      added, result := ListAdapters(nodes[n], |nodes|);
      AdoptKeepsWellFormed(nodes, n, added);
      nodes := Adopted(nodes, n, added);
    }

    /**
     * The required check and param of every required getter: a missing
     * field is an error naming its full path and the source, and records
     * nothing; a present one is recorded and its value returned.
     */
    method RequiredParam(n: nat, name: string) returns (r: Result<Json, ConfigError>)
      requires Valid() && n < |nodes|
      modifies this
      ensures Valid()
      ensures r.Err? <==> !Has(old(nodes[n].json), name)
      ensures r.Err? ==>
                && r.error == RequiredParameterMissing(FullPath(old(nodes[n].contextPath), name), source)
                && nodes == old(nodes)
      ensures r.Ok? ==>
                && r.value == Get(old(nodes[n].json), name)
                && nodes == old(nodes)[n := old(nodes[n]).(parameterNames := old(nodes[n].parameterNames) + [name])]
    {
      if !Has(nodes[n].json, name) {
        return Err(RequiredParameterMissing(FullPath(nodes[n].contextPath, name), source));
      }
      var j := Param(n, name);
      r := Ok(j);
    }

    /** asText(name): a required parameter as text. */
    method AsTextRequired(n: nat, name: string) returns (r: Result<string, ConfigError>)
      requires Valid() && n < |nodes|
      modifies this
      ensures Valid()
      ensures r.Err? <==> !Has(old(nodes[n].json), name)
      ensures r.Err? ==> r.error == RequiredParameterMissing(FullPath(old(nodes[n].contextPath), name), source)
      ensures r.Ok? ==> r.value == AsText(Get(old(nodes[n].json), name))
      ensures nodes == if r.Err? then old(nodes)
                       else old(nodes)[n := old(nodes[n]).(parameterNames := old(nodes[n].parameterNames) + [name])]
    {
      var j := RequiredParam(n, name);
      match j
      case Err(e) => r := Err(e);
      case Ok(v) => r := Ok(AsText(v));
    }

    /** asText(name, default): the text, or the default when the field is missing or null; the name is recorded either way. */
    method AsTextOrDefault(n: nat, name: string, default: string) returns (r: string)
      requires Valid() && n < |nodes|
      modifies this
      ensures Valid()
      ensures !Has(old(nodes[n].json), name) ==> r == default
      ensures r == AsTextOr(Get(old(nodes[n].json), name), default)
      ensures nodes == old(nodes)[n := old(nodes[n]).(parameterNames := old(nodes[n].parameterNames) + [name])]
    {
      var j := Param(n, name);
      r := AsTextOr(j, default);
    }

    /**
     * asEnum(name, type): a required enum parameter, matched ignoring
     * case; a value no constant matches is an error listing the legal ones.
     */
    method AsEnum(n: nat, name: string, constants: seq<string>) returns (r: Result<nat, ConfigError>)
      requires Valid() && n < |nodes|
      modifies this
      ensures Valid()
      ensures var text := AsText(Get(old(nodes[n].json), name));
        && (!Has(old(nodes[n].json), name) ==> r == Err(RequiredParameterMissing(FullPath(old(nodes[n].contextPath), name), source)))
        && (Has(old(nodes[n].json), name) && FindEnum(constants, text).None? ==>
              r == Err(IllegalEnumValue(FullPath(old(nodes[n].contextPath), name), text, constants, source)))
        && (r.Ok? ==> r.value < |constants| && ToUpper(constants[r.value]) == ToUpper(text))
        && (Has(old(nodes[n].json), name) && FindEnum(constants, text).Some? ==> r == Ok(FindEnum(constants, text).value))
      ensures |nodes| == old(|nodes|)
    {
      var text := AsTextRequired(n, name);
      match text
      case Err(e) => r := Err(e);
      case Ok(value) => r := EnumOf(n, name, value, constants);
    }

    /** asEnum(name, default): an optional enum parameter; a missing one gives the default's own constant. */
    method AsEnumOrDefault(n: nat, name: string, constants: seq<string>, default: nat) returns (r: Result<nat, ConfigError>)
      requires Valid() && n < |nodes| && default < |constants|
      modifies this
      ensures Valid()
      ensures !Has(old(nodes[n].json), name) ==> r.Ok? && r.value <= default && ToUpper(constants[r.value]) == ToUpper(constants[default])
      ensures var text := AsTextOr(Get(old(nodes[n].json), name), constants[default]);
        && (r.Ok? ==> r.value < |constants| && ToUpper(constants[r.value]) == ToUpper(text))
        && (r.Err? ==> r.error == IllegalEnumValue(FullPath(old(nodes[n].contextPath), name), text, constants, source)
                       && FindEnum(constants, text).None?)
      ensures |nodes| == old(|nodes|)
    {
      var value := AsTextOrDefault(n, name, constants[default]);
      r := EnumOf(n, name, value, constants);
    }

    /** The private asEnum: the first constant matching ignoring case, or the illegal-value error. */
    method EnumOf(n: nat, name: string, value: string, constants: seq<string>) returns (r: Result<nat, ConfigError>)
      requires n < |nodes|
      ensures r.Ok? ==> FindEnum(constants, value) == Some(r.value)
      ensures r.Err? ==>
                && FindEnum(constants, value).None?
                && r.error == IllegalEnumValue(FullPath(nodes[n].contextPath, name), value, constants, source)
    {
      match FindEnum(constants, value)
      case Some(k) => r := Ok(k);
      case None => r := Err(IllegalEnumValue(FullPath(nodes[n].contextPath, name), value, constants, source));
    }

    /**
     * asLocale: the default when the field is not there (nothing is
     * recorded then); otherwise the text split into one to three parts,
     * and any other count is an error naming the path and the source.
     */
    method AsLocale(n: nat, name: string, default: Locale) returns (r: Result<Locale, ConfigError>)
      requires Valid() && n < |nodes|
      modifies this
      ensures Valid()
      ensures !Has(old(nodes[n].json), name) ==> r == Ok(default) && nodes == old(nodes)
      ensures Has(old(nodes[n].json), name) ==>
                var text := AsText(Get(old(nodes[n].json), name));
                && (ParseLocale(text).Some? ==> r == Ok(ParseLocale(text).value))
                && (ParseLocale(text).None? ==> r == Err(InvalidLocale(FullPath(old(nodes[n].contextPath), name), source)))
                && nodes == old(nodes)[n := old(nodes[n]).(parameterNames := old(nodes[n].parameterNames) + [name])]
    {
      if !Has(nodes[n].json, name) {
        return Ok(default);
      }
      // The field exists, so the required asText does not throw.
      var j := Param(n, name);
      match ParseLocale(AsText(j))
      case Some(loc) => r := Ok(loc);
      case None => r := Err(InvalidLocale(FullPath(nodes[n].contextPath, name), source));
    }

    /** Every entry unusedParams gathers below node n, before sorting: its own fields first, then each child's in order. */
    ghost function AllUnused(n: nat, render: Json -> string): seq<string>
      requires Valid() && n < |nodes|
      reads this
      decreases |nodes| - n, 1
    {
      OwnUnused(nodes[n], FieldsOf(nodes[n].json), render) + ChildrenUnused(n, nodes[n].children, render)
    }

    /** The entries of the children cs of node n, one child after the other. */
    ghost function ChildrenUnused(n: nat, cs: seq<nat>, render: Json -> string): seq<string>
      requires Valid() && n < |nodes|
      requires forall k :: 0 <= k < |cs| ==> n < cs[k] < |nodes|
      reads this
      decreases |nodes| - n, 0, |cs|
    {
      if cs == [] then []
      else ChildrenUnused(n, cs[..|cs| - 1], render) + AllUnused(cs[|cs| - 1], render)
    }

    /** The entries of the first k + 1 children: those of the first k, then the next child's. */
    lemma ChildrenUnusedStep(n: nat, cs: seq<nat>, render: Json -> string, k: nat)
      requires Valid() && n < |nodes|
      requires forall k :: 0 <= k < |cs| ==> n < cs[k] < |nodes|
      requires k < |cs|
      ensures ChildrenUnused(n, cs[..k + 1], render) == ChildrenUnused(n, cs[..k], render) + AllUnused(cs[k], render)
    {
      assert cs[..k + 1][..k] == cs[..k];
    }

    /** A child's entries are all among its parent's. */
    lemma {:induction false} ChildEntriesIncluded(n: nat, cs: seq<nat>, render: Json -> string, k: nat)
      requires Valid() && n < |nodes|
      requires forall k :: 0 <= k < |cs| ==> n < cs[k] < |nodes|
      requires k < |cs|
      ensures multiset(AllUnused(cs[k], render)) <= multiset(ChildrenUnused(n, cs, render))
      decreases |cs|
    {
      if k < |cs| - 1 {
        ChildEntriesIncluded(n, cs[..|cs| - 1], render, k);
      }
    }

    /**
     * unusedParams: the entries for every field never asked for, in this
     * adapter and, recursively, in every child it kept, sorted.
     */
    method UnusedParams(n: nat, render: Json -> string) returns (r: seq<string>)
      requires Valid() && n < |nodes|
      ensures Sorted(r) && multiset(r) == multiset(AllUnused(n, render))
      decreases |nodes| - n
    {
      var node := nodes[n];
      var own := UnusedFields(node, render);
      var all := own;
      var k := 0;
      while k < |node.children|
        invariant 0 <= k <= |node.children|
        invariant multiset(all) == multiset(own + ChildrenUnused(n, node.children[..k], render))
      {
        var sub := UnusedParams(node.children[k], render);
        ChildrenUnusedStep(n, node.children, render, k);
        all := all + sub;
        k := k + 1;
      }
      assert node.children[..k] == node.children;
      r := SortStrings(all);
    }
  }

  /** A kept child's unused fields are listed with its parent's. */
  lemma ChildUnusedListed(t: ConfigTree, n: nat, c: nat, render: Json -> string)
    requires t.Valid() && n < |t.nodes| && c in t.nodes[n].children
    ensures c < |t.nodes| && multiset(t.AllUnused(c, render)) <= multiset(t.AllUnused(n, render))
  {
    var cs := t.nodes[n].children;
    var k :| 0 <= k < |cs| && cs[k] == c;
    t.ChildEntriesIncluded(n, cs, render, k);
  }
}

/**
 * Column label resolution (src/config/columnTranslations.ts): a fixed table
 * of translated labels, a key humaniser, and the precedence chain
 * "translation, else the backend's label, else the humanised key".
 */
module ColumnTranslations {
  import opened Wrappers

  /** COLUMN_TRANSLATIONS: the fixed key -> label table. */
  const Translations: map<string, string> := map[
    "name" := "Nome",
    "code" := "Código",
    "created_at" := "Criado em",
    "updated_at" := "Atualizado em",
    "disabled" := "Status",
    "notes" := "Notas"
  ]

  const TranslatedKeys: set<string> := {"name", "code", "created_at", "updated_at", "disabled", "notes"}

  /** getColumnTranslation: the table's label for the six known keys and
      nothing for any other key. */
  function GetColumnTranslation(key: string): (r: Option<string>)
    ensures r.Some? <==> key in TranslatedKeys
    ensures r.Some? ==> r.value != ""
  {
    if key in Translations then Some(Translations[key]) else None
  }

  // ---------------------------------------------------------------------
  // humanizeKey: three replace passes in a row.

  /** Pass 1: every underscore becomes a space. */
  function ReplaceUnderscores(s: string): (r: string)
    ensures |r| == |s|
    ensures forall i :: 0 <= i < |s| ==> r[i] == if s[i] == '_' then ' ' else s[i]
  {
    if s == [] then []
    else [if s[0] == '_' then ' ' else s[0]] + ReplaceUnderscores(s[1..])
  }

  predicate IsLowerAscii(c: char) {
    'a' <= c <= 'z'
  }

  predicate IsUpperAscii(c: char) {
    'A' <= c <= 'Z'
  }

  /** A lower-case ASCII letter immediately followed by an upper-case one. */
  predicate CamelBoundary(s: string, i: int)
    requires 0 <= i
  {
    i + 1 < |s| && IsLowerAscii(s[i]) && IsUpperAscii(s[i + 1])
  }

  /**
   * Pass 2, .replace(/([a-z])([A-Z])/g, "$1 $2"), as the regular expression
   * engine runs it: scanning left to right, a match of a lower-case letter
   * and an upper-case letter is rewritten with a space between them and the
   * scan resumes after the pair.
   */
  function SplitCamelCase(s: string): (r: string)
    decreases |s|
  {
    if |s| < 2 then s
    else if IsLowerAscii(s[0]) && IsUpperAscii(s[1]) then [s[0], ' ', s[1]] + SplitCamelCase(s[2..])
    else [s[0]] + SplitCamelCase(s[1..])
  }

  /** Reference definition of pass 2: copy the string, putting one space
      after every character that starts a camel-case boundary. */
  function SpaceAtBoundaries(s: string): (r: string)
  {
    if s == [] then []
    else [s[0]] + (if CamelBoundary(s, 0) then " " else "") + SpaceAtBoundaries(s[1..])
  }

  /** Number of camel-case boundaries in s. */
  function Boundaries(s: string): nat
  {
    if s == [] then 0
    else (if CamelBoundary(s, 0) then 1 else 0) + Boundaries(s[1..])
  }

  /** The scan inserts exactly one space at each camel-case boundary: the
      regular-expression pass agrees with the position-by-position one. */
  lemma {:induction false} SplitCamelCaseInsertsOneSpacePerBoundary(s: string)
    ensures SplitCamelCase(s) == SpaceAtBoundaries(s)
    ensures |SplitCamelCase(s)| == |s| + Boundaries(s)
    decreases |s|
  {
    if |s| < 2 {
      if |s| == 1 {
        assert s[1..] == [];
        assert SpaceAtBoundaries(s) == [s[0]] + "" + [];
      }
    } else if IsLowerAscii(s[0]) && IsUpperAscii(s[1]) {
      var t := s[1..];
      assert !CamelBoundary(t, 0);
      assert t[1..] == s[2..];
      SplitCamelCaseInsertsOneSpacePerBoundary(s[2..]);
      assert SpaceAtBoundaries(t) == [t[0]] + "" + SpaceAtBoundaries(s[2..]);
      assert Boundaries(t) == Boundaries(s[2..]);
    } else {
      assert !CamelBoundary(s, 0);
      SplitCamelCaseInsertsOneSpacePerBoundary(s[1..]);
    }
  }

  /** Pass 2 adds no underscore. */
  lemma {:induction false} SplitCamelCaseNoUnderscore(s: string)
    requires forall i :: 0 <= i < |s| ==> s[i] != '_'
    ensures forall i :: 0 <= i < |SplitCamelCase(s)| ==> SplitCamelCase(s)[i] != '_'
    decreases |s|
  {
    if |s| >= 2 {
      if IsLowerAscii(s[0]) && IsUpperAscii(s[1]) {
        SplitCamelCaseNoUnderscore(s[2..]);
      } else {
        SplitCamelCaseNoUnderscore(s[1..]);
      }
    }
  }

  /** JavaScript's line terminators, which `.` in /^./ does not match. */
  predicate IsLineTerminator(c: char) {
    c == '\n' || c == '\r' || c == '\U{2028}' || c == '\U{2029}'
  }

  function ToUpperAscii(c: char): (u: char)
  {
    if IsLowerAscii(c) then (c as int - 32) as char else c
  }

  /** Pass 3, .replace(/^./, c => c.toUpperCase()): upper-cases the first
      character unless the string is empty or starts with a line terminator. */
  function CapitalizeFirst(s: string): (r: string)
  {
    if s == [] || IsLineTerminator(s[0]) then s
    else [ToUpperAscii(s[0])] + s[1..]
  }

  /**
   * humanizeKey: underscores become spaces, camel-case boundaries get a
   * space, and the first character is upper-cased.  It maps "" to "", never
   * shortens its input, and leaves no underscore behind.
   */
  function HumanizeKey(key: string): (r: string)
    ensures |r| == |key| + Boundaries(ReplaceUnderscores(key))
    ensures |r| >= |key|
    ensures r == "" <==> key == ""
    ensures forall i :: 0 <= i < |r| ==> r[i] != '_'
  {
    var spaced := ReplaceUnderscores(key);
    SplitCamelCaseInsertsOneSpacePerBoundary(spaced);
    SplitCamelCaseNoUnderscore(spaced);
    CapitalizeFirst(SplitCamelCase(spaced))
  }

  /** Only the first character is touched by pass 3: it is upper-cased (an
      ASCII letter) unless it is a line terminator; the rest is exactly what
      the first two passes produced. */
  lemma HumanizeKeyCapitalizesFirstOnly(key: string)
    requires key != ""
    ensures var t := SplitCamelCase(ReplaceUnderscores(key));
      var r := HumanizeKey(key);
      && |t| > 0 && |r| == |t| && r[1..] == t[1..]
      && r[0] == (if IsLineTerminator(t[0]) then t[0] else ToUpperAscii(t[0]))
  {
    SplitCamelCaseInsertsOneSpacePerBoundary(ReplaceUnderscores(key));
  }

  lemma SplitExample()
    ensures SplitCamelCase("userId") == "user Id"
  {
    assert "userId"[1..] == "serId" && "serId"[1..] == "erId" && "erId"[1..] == "rId";
    assert "rId"[2..] == "d" && SplitCamelCase("d") == "d";
  }

  lemma UnderscoreFreeExample()
    ensures ReplaceUnderscores("userId") == "userId"
  {
    var t := ReplaceUnderscores("userId");
    forall i | 0 <= i < 6 ensures t[i] == "userId"[i] {
    }
  }

  lemma CapitalizeExample()
    ensures CapitalizeFirst("user Id") == "User Id"
  {
    assert ToUpperAscii('u') == 'U';
    assert ['U'] + "user Id"[1..] == "User Id";
  }

  /** A key through the three passes. */
  lemma HumanizeKeyExample()
    ensures HumanizeKey("userId") == "User Id"
  {
    UnderscoreFreeExample();
    SplitExample();
    CapitalizeExample();
  }

  /**
   * resolveColumnLabel: the translation if there is one, else the backend's
   * label, else the humanised key.  An empty backend label counts as absent,
   * as it is falsy in JavaScript.
   */
  function ResolveColumnLabel(key: string, backendLabel: Option<string>): (r: string)
    ensures key in TranslatedKeys ==> r == Translations[key]
    ensures key !in TranslatedKeys && backendLabel.Some? && backendLabel.value != "" ==> r == backendLabel.value
    ensures key !in TranslatedKeys && (backendLabel == None || backendLabel == Some("")) ==> r == HumanizeKey(key)
    ensures key != "" ==> r != ""
  {
    match GetColumnTranslation(key)
    case Some(t) => t
    case None =>
      if backendLabel.Some? && backendLabel.value != "" then backendLabel.value
      else HumanizeKey(key)
  }

  /** A translated key ignores the backend label: "code" is "Código" whatever
      the server says. */
  lemma TranslatedKeyIgnoresBackend(backendLabel: Option<string>)
    ensures ResolveColumnLabel("code", backendLabel) == "Código"
    ensures ResolveColumnLabel("name", backendLabel) == "Nome"
  {
  }

  // ---------------------------------------------------------------------
  // The table read as the source writes it.  `COLUMN_TRANSLATIONS[key]` is
  // a JavaScript property read, so besides the six own keys it also finds
  // the members every object inherits from Object.prototype.  Those values
  // are functions (or, for "__proto__", an object): truthy, so the `||`
  // chain returns them and the backend label and the humanised key are
  // never consulted.

  const InheritedMembers: set<string> := {
    "constructor", "hasOwnProperty", "isPrototypeOf", "propertyIsEnumerable",
    "toLocaleString", "toString", "valueOf", "__proto__",
    "__defineGetter__", "__defineSetter__", "__lookupGetter__", "__lookupSetter__"
  }

  datatype PropertyRead = OwnLabel(text: string) | InheritedMember(name: string) | Undefined

  /** A label as the page receives it: a string, or a non-string value. */
  datatype Label = Text(text: string) | NonText(member: string)

  function TranslationReadAsWritten(key: string): (r: PropertyRead)
    ensures r.Undefined? <==> key !in TranslatedKeys && key !in InheritedMembers
  {
    if key in Translations then OwnLabel(Translations[key])
    else if key in InheritedMembers then InheritedMember(key)
    else Undefined
  }

  function ResolveColumnLabelAsWritten(key: string, backendLabel: Option<string>): (r: Label)
    ensures r.NonText? <==> key in InheritedMembers
  {
    match TranslationReadAsWritten(key)
    case OwnLabel(t) => Text(t)
    case InheritedMember(m) => NonText(m)
    case Undefined =>
      if backendLabel.Some? && backendLabel.value != "" then Text(backendLabel.value)
      else Text(HumanizeKey(key))
  }

  /** A column whose key is "constructor" gets a function for a label, even
      when the backend supplies one. */
  lemma InheritedKeyGivesNonTextLabel()
    ensures ResolveColumnLabelAsWritten("constructor", Some("Construtor")) == NonText("constructor")
    ensures ResolveColumnLabel("constructor", Some("Construtor")) == "Construtor"
  {
  }

  /** Away from the inherited member names, the source's read and the
      own-key lookup used by the rest of this model agree. */
  lemma AsWrittenAgreesOffPrototype(key: string, backendLabel: Option<string>)
    requires key !in InheritedMembers
    ensures ResolveColumnLabelAsWritten(key, backendLabel) == Text(ResolveColumnLabel(key, backendLabel))
  {
  }
}

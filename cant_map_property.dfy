/**
 * quickfix/factories/CantMapPropertyQFFactory.java: turns a MapStruct error
 * message of the form
 *   Can't map property "S s" to "T t". ...
 * into quick fixes: an "add method" fix when neither type is generic, then
 * always a fix that ignores the target property. The message is matched
 * against one regular expression; `Match` is a dedicated matcher for it,
 * proved equal to the declarative reading of the expression.
 */
module CantMapPropertyFactory {
  import opened JavaLang

  /** The literal text before the first quoted part. */
  const PREFIX: string := "Can't map property \""
  /** The literal text between the closing quote of the first part and the second part. */
  const TO: string := " to \""

  /** The four groups of the expression: source type and property, target type and property. */
  datatype Groups = Groups(sourceType: string, sourceProperty: string, targetType: string, targetProperty: string)

  /** The characters `.` does not match when the expression has no DOTALL flag. */
  predicate IsLineTerminator(c: char)
  {
    c == '\n' || c == '\r' || c == '\U{85}' || c == '\U{2028}' || c == '\U{2029}'
  }

  predicate NoLineTerminator(s: string)
  {
    forall i :: 0 <= i < |s| ==> !IsLineTerminator(s[i])
  }

  /** The first `"` of `s`, if any. */
  function QuoteIndex(s: string): (r: Option<nat>)
    ensures r.Some? ==> r.value < |s| && s[r.value] == '"' && '"' !in s[..r.value]
    ensures r.None? ==> '"' !in s
  {
    if s == [] then None
    else if s[0] == '"' then Some(0)
    else match QuoteIndex(s[1..])
      case None => None
      case Some(i) => assert s[..i + 1] == [s[0]] + s[1..][..i]; Some(i + 1)
  }

  /** `s` cut at its first `"`: the text before it and the text after it. */
  function Quoted(s: string): (r: Option<(string, string)>)
    ensures r.Some? ==> '"' !in r.value.0 && s == r.value.0 + "\"" + r.value.1
    ensures r.None? ==> '"' !in s
  {
    match QuoteIndex(s)
    case None => None
    case Some(e) => assert s == s[..e] + "\"" + s[e + 1..]; Some((s[..e], s[e + 1..]))
  }

  lemma QuotedJoin(part: string, rest: string)
    requires '"' !in part
    ensures Quoted(part + "\"" + rest) == Some((part, rest))
  {
    var s := part + "\"" + rest;
    assert s[|part|] == '"' && s[|part|] in s;
    assert forall i :: 0 <= i < |part| ==> s[i] == part[i];
    assert s[..|part|] == part && s[|part| + 1..] == rest;
  }

  /** The last space of `q` before position `hi` that has at least one character before it. */
  function LastSpaceBefore(q: string, hi: nat): (r: Option<nat>)
    requires hi <= |q|
    ensures r.Some? ==> 1 <= r.value < hi && q[r.value] == ' ' && forall j :: r.value < j < hi ==> q[j] != ' '
    ensures r.None? ==> forall j :: 1 <= j < hi ==> q[j] != ' '
  {
    if hi <= 1 then None
    else if q[hi - 1] == ' ' then Some(hi - 1)
    else LastSpaceBefore(q, hi - 1)
  }

  /**
   * How `([^"]+) ([^"]+)` splits a quoted part: the first group is greedy,
   * so the split is at the last space that leaves both groups non-empty.
   */
  function Split(q: string): Option<(string, string)>
  {
    if q == [] then None
    else match LastSpaceBefore(q, |q| - 1)
      case None => None
      case Some(k) => Some((q[..k], q[k + 1..]))
  }

  /** A type group: non-empty and free of `"`. */
  predicate TypeGroup(s: string)
  {
    |s| >= 1 && '"' !in s
  }

  /**
   * A property group: non-empty, free of `"`, and with no space before its
   * last character (a space there would have been taken as the split by the
   * greedy first group).
   */
  predicate PropertyGroup(s: string)
  {
    |s| >= 1 && '"' !in s && forall j :: 0 <= j < |s| - 1 ==> s[j] != ' '
  }

  lemma SplitJoin(t: string, p: string)
    requires TypeGroup(t) && PropertyGroup(p)
    ensures Split(t + " " + p) == Some((t, p))
    ensures '"' !in t + " " + p
  {
    var q := t + " " + p;
    assert q[|t|] == ' ';
    forall j | |t| < j < |q| - 1 ensures q[j] != ' ' {
      assert q[j] == p[j - |t| - 1];
    }
    assert q[..|t|] == t && q[|t| + 1..] == p;
    forall i | 0 <= i < |q| ensures q[i] != '"' {
      if i < |t| { assert q[i] == t[i]; }
      else if i > |t| { assert q[i] == p[i - |t| - 1]; }
    }
  }

  lemma SplitSound(q: string)
    requires Split(q).Some?
    requires '"' !in q
    ensures TypeGroup(Split(q).value.0) && PropertyGroup(Split(q).value.1)
    ensures q == Split(q).value.0 + " " + Split(q).value.1
  {
    var k := LastSpaceBefore(q, |q| - 1).value;
    var (t, p) := (q[..k], q[k + 1..]);
    assert q == t + " " + p;
    forall j | 0 <= j < |p| - 1 ensures p[j] != ' ' {
      assert p[j] == q[k + 1 + j];
    }
    assert forall c :: c in t ==> c in q;
    assert forall c :: c in p ==> c in q;
  }

  /** `Pattern.matcher(message).matches()` and, on success, groups 1 to 4. */
  function Match(message: string): Option<Groups>
  {
    if !StartsWith(message, PREFIX) then None
    else match Quoted(message[|PREFIX|..])
      case None => None
      case Some((part1, after)) =>
        if !StartsWith(after, TO) then None
        else match Quoted(after[|TO|..])
          case None => None
          case Some((part2, tail)) =>
            if !(StartsWith(tail, ".") && NoLineTerminator(tail[1..])) then None
            else match (Split(part1), Split(part2))
              case (Some((t1, p1)), Some((t2, p2))) => Some(Groups(t1, p1, t2, p2))
              case _ => None
  }

  predicate GroupsOk(g: Groups)
  {
    TypeGroup(g.sourceType) && PropertyGroup(g.sourceProperty) && TypeGroup(g.targetType) && PropertyGroup(g.targetProperty)
  }

  /** The message the expression describes for groups `g`, followed by `rest` in place of the final `.*`. */
  function Message(g: Groups, rest: string): string
  {
    PREFIX + (g.sourceType + " " + g.sourceProperty + "\"" + (TO + (g.targetType + " " + g.targetProperty + "\"" + ("." + rest))))
  }

  /**
   * Every message the expression describes is matched, with its own groups;
   * the same text with a line terminator after the `.` is not.
   */
  lemma MatchComplete(g: Groups, rest: string)
    requires GroupsOk(g)
    ensures NoLineTerminator(rest) ==> Match(Message(g, rest)) == Some(g)
    ensures !NoLineTerminator(rest) ==> Match(Message(g, rest)) == None
  {
    var part1 := g.sourceType + " " + g.sourceProperty;
    var part2 := g.targetType + " " + g.targetProperty;
    var tail := "." + rest;
    var after := TO + (part2 + "\"" + tail);
    var message := Message(g, rest);
    assert message == PREFIX + (part1 + "\"" + after);
    assert message[|PREFIX|..] == part1 + "\"" + after;
    SplitJoin(g.sourceType, g.sourceProperty);
    SplitJoin(g.targetType, g.targetProperty);
    QuotedJoin(part1, after);
    assert after[|TO|..] == part2 + "\"" + tail;
    QuotedJoin(part2, tail);
    assert tail[1..] == rest;
  }

  /** Whatever is matched has the shape the expression describes. */
  lemma MatchSound(message: string)
    requires Match(message).Some?
    ensures GroupsOk(Match(message).value)
    ensures exists rest :: NoLineTerminator(rest) && message == Message(Match(message).value, rest)
  {
    var g := Match(message).value;
    var (part1, after) := Quoted(message[|PREFIX|..]).value;
    var (part2, tail) := Quoted(after[|TO|..]).value;
    SplitSound(part1);
    SplitSound(part2);
    assert g == Groups(Split(part1).value.0, Split(part1).value.1, Split(part2).value.0, Split(part2).value.1);
    var rest := tail[1..];
    assert tail == "." + rest;
    assert after == TO + after[|TO|..];
    assert message == PREFIX + message[|PREFIX|..];
    assert message == Message(g, rest);
  }

  /** The matcher accepts exactly the messages the expression describes, with their groups. */
  lemma MatchExactly(message: string, g: Groups)
    ensures Match(message) == Some(g) <==>
              GroupsOk(g) && exists rest :: NoLineTerminator(rest) && message == Message(g, rest)
  {
    if Match(message) == Some(g) {
      MatchSound(message);
    }
    if GroupsOk(g) && exists rest :: NoLineTerminator(rest) && message == Message(g, rest) {
      var rest :| NoLineTerminator(rest) && message == Message(g, rest);
      MatchComplete(g, rest);
    }
  }

  /** Without the `.` after the second quoted part the message is not matched. */
  lemma NoFinalDotExample()
    ensures Match("Can't map property \"String name\" to \"int age\"") == None
  {
    var m := "Can't map property \"String name\" to \"int age\"";
    assert m[|PREFIX|..] == "String name" + "\"" + " to \"int age\"";
    QuotedJoin("String name", " to \"int age\"");
    assert " to \"int age\""[|TO|..] == "int age" + "\"" + "";
    QuotedJoin("int age", "");
  }

  /** A quoted part without a space to split at is not matched. */
  lemma NoSpaceExample()
    ensures Match("Can't map property \"name\" to \"int age\".") == None
  {
    var m := "Can't map property \"name\" to \"int age\".";
    assert m[|PREFIX|..] == "name" + "\"" + " to \"int age\".";
    QuotedJoin("name", " to \"int age\".");
    assert Split("name") == None;
  }

  /** The fixes the factory creates. */
  datatype QuickFix =
    | AddMethod(resultType: string, sourceType: string)
    | AddIgnoreTarget(properties: seq<string>)

  /** `isGenericType`: the type name has type arguments. */
  predicate IsGenericType(typeName: string)
  {
    ContainsChar(typeName, '<')
  }

  /** `createQuickFix`, for the message of the marker. */
  method CreateQuickFix(message: string) returns (result: seq<QuickFix>)
    ensures Match(message).None? ==> result == []
    ensures Match(message).Some? ==> 1 <= |result| <= 2
    ensures Match(message).Some? ==> result[|result| - 1] == AddIgnoreTarget([Match(message).value.targetProperty])
    ensures Match(message).Some? ==>
              (|result| == 2 <==> !IsGenericType(Match(message).value.sourceType) && !IsGenericType(Match(message).value.targetType))
    ensures |result| == 2 ==> result[0] == AddMethod(Match(message).value.targetType, Match(message).value.sourceType)
  {
    result := [];
    var matcher := Match(message);
    if matcher.Some? {
      var srcType := matcher.value.sourceType;
      var targetType := matcher.value.targetType;
      var targetProp := matcher.value.targetProperty;
      if !IsGenericType(srcType) && !IsGenericType(targetType) {
        result := result + [AddMethod(targetType, srcType)];
      }
      result := result + [AddIgnoreTarget([targetProp])];
    }
  }
}

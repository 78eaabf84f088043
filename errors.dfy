/**
 * The errors Process returns: ErrInvalidSpecification, ParseError,
 * RequiredError and the MultiError list, with their texts.
 */
module Errors {

  /** A per-field error, collected rather than returned at once. */
  datatype FieldError =
    | ParseError(keyName: string, fieldName: string, typeName: string, value: string)
    | RequiredError(keyName: string)

  /** The error values Process can return (a nil error is None). */
  datatype Error =
    | InvalidSpecification
    | MultiError(errors: seq<FieldError>)

  const InvalidSpecificationText := "invalid specification must be a struct"
  const RequiredPrefix := "envconfig.Process: required key "
  const RequiredSuffix := " not found"

  const AssigningPrefix := "envconfig.Process: assigning "
  const TypeInfix := "' to type "

  /** ParseError.Error: key, field name, raw value and type name in one sentence. */
  function ParseMessage(keyName: string, fieldName: string, typeName: string, value: string): string {
    AssigningPrefix + keyName + " to " + fieldName + ": converting '" + value + TypeInfix + typeName
  }

  /** The text of a ParseError starts with its key and ends with its type name. */
  lemma ParseMessageEnds(keyName: string, fieldName: string, typeName: string, value: string)
    ensures var r := ParseMessage(keyName, fieldName, typeName, value);
      && |r| >= |AssigningPrefix| + |keyName| + |TypeInfix| + |typeName|
      && r[|AssigningPrefix|..|AssigningPrefix| + |keyName|] == keyName
      && r[|r| - |TypeInfix| - |typeName|..] == TypeInfix + typeName
  {
    var r := ParseMessage(keyName, fieldName, typeName, value);
    var front := AssigningPrefix + keyName;
    var back := TypeInfix + typeName;
    var middle := " to " + fieldName + ": converting '" + value;
    assert r == front + middle + back;
    assert r[|AssigningPrefix|..|front|] == keyName;
    assert r[|r| - |back|..] == back;
  }

  /** RequiredError.Error: the key between a fixed prefix and suffix. */
  function RequiredMessage(keyName: string): string {
    RequiredPrefix + keyName + RequiredSuffix
  }

  /** The key of a RequiredError can be read back from its text. */
  lemma RequiredMessageKey(keyName: string)
    ensures var r := RequiredMessage(keyName);
      |r| == |RequiredPrefix| + |keyName| + |RequiredSuffix|
      && r[|RequiredPrefix|..|r| - |RequiredSuffix|] == keyName
  {
    var r := RequiredMessage(keyName);
    assert r[|RequiredPrefix|..|r| - |RequiredSuffix|] == keyName;
  }

  /** The text of one collected error. */
  function Message(e: FieldError): string {
    match e
    case ParseError(k, f, t, v) => ParseMessage(k, f, t, v)
    case RequiredError(k) => RequiredMessage(k)
  }

  /** The texts of a list of errors, in order. */
  function Messages(errs: seq<FieldError>): (r: seq<string>)
    ensures |r| == |errs|
    ensures forall i :: 0 <= i < |errs| ==> r[i] == Message(errs[i])
  {
    seq(|errs|, i requires 0 <= i < |errs| => Message(errs[i]))
  }

  /** The line of one message in the text of a MultiError, newline included. */
  function Bullet(msg: string): string {
    " - " + msg + "\n"
  }

  /** One bullet line per message, in order. */
  function Bullets(msgs: seq<string>): string {
    if msgs == [] then "" else Bullet(msgs[0]) + Bullets(msgs[1..])
  }

  const Open: string := "[\n"
  const Close: string := "]"

  /** The text of an error returned by Process. */
  function ErrorText(e: Error): string {
    match e
    case InvalidSpecification => InvalidSpecificationText
    case MultiError(errs) => Open + Bullets(Messages(errs)) + Close
  }

  lemma {:induction false} BulletsSnoc(msgs: seq<string>, m: string)
    ensures Bullets(msgs + [m]) == Bullets(msgs) + Bullet(m)
  {
    if msgs == [] {
      assert Bullets([m]) == Bullet(m) + Bullets([]);
    } else {
      assert (msgs + [m])[1..] == msgs[1..] + [m];
      BulletsSnoc(msgs[1..], m);
      calc {
        Bullets(msgs + [m]);
        Bullet(msgs[0]) + Bullets(msgs[1..] + [m]);
        Bullet(msgs[0]) + (Bullets(msgs[1..]) + Bullet(m));
        (Bullet(msgs[0]) + Bullets(msgs[1..])) + Bullet(m);
      }
    }
  }

  /** Appending the line of message i extends the text built from the messages before it. */
  lemma TextStep(msgs: seq<string>, i: nat)
    requires i < |msgs|
    ensures Open + Bullets(msgs[..i + 1]) == (Open + Bullets(msgs[..i])) + Bullet(msgs[i])
  {
    BulletsSnoc(msgs[..i], msgs[i]);
    assert msgs[..i + 1] == msgs[..i] + [msgs[i]];
  }

  /** MultiError.Error: builds the bracketed list one line at a time. */
  method MultiErrorText(errs: seq<FieldError>) returns (str: string)
    ensures str == ErrorText(MultiError(errs))
  {
    ghost var msgs := Messages(errs);
    str := Open;
    for i := 0 to |errs|
      invariant str == Open + Bullets(msgs[..i])
    {
      TextStep(msgs, i);
      str := str + Bullet(Message(errs[i]));
    }
    assert msgs[..|errs|] == msgs;
    str := str + Close;
  }

  /** The lines of a text: the pieces between newline characters. */
  function SplitLines(s: string): (r: seq<string>)
    ensures |r| >= 1
  {
    if s == [] then [""]
    else if s[0] == '\n' then [""] + SplitLines(s[1..])
    else
      var rest := SplitLines(s[1..]);
      [[s[0]] + rest[0]] + rest[1..]
  }

  lemma {:induction false} SplitLinesAppend(a: string, b: string)
    requires '\n' !in a
    ensures SplitLines(a + "\n" + b) == [a] + SplitLines(b)
  {
    if a != [] {
      var s := a + "\n" + b;
      assert s[0] == a[0] && s[0] != '\n';
      assert s[1..] == a[1..] + "\n" + b;
      SplitLinesAppend(a[1..], b);
      assert [a[0]] + a[1..] == a;
    } else {
      assert a + "\n" + b == "\n" + b;
    }
  }

  /** The lines expected between the brackets: " - " and one message each. */
  function BulletLines(msgs: seq<string>): (r: seq<string>)
    ensures |r| == |msgs|
  {
    seq(|msgs|, i requires 0 <= i < |msgs| => " - " + msgs[i])
  }

  lemma {:induction false} BulletsLines(msgs: seq<string>)
    requires forall i :: 0 <= i < |msgs| ==> '\n' !in msgs[i]
    ensures SplitLines(Bullets(msgs) + Close) == BulletLines(msgs) + [Close]
  {
    if msgs == [] {
      assert Bullets(msgs) + Close == Close;
      assert SplitLines(Close) == [Close] by {
        assert Close[0] != '\n' && Close[1..] == [];
        assert SplitLines(Close[1..]) == [""];
        assert [Close[0]] + "" == Close;
      }
      assert BulletLines(msgs) == [];
    } else {
      var line := " - " + msgs[0];
      assert '\n' !in line by {
        assert '\n' !in msgs[0];
      }
      assert Bullets(msgs) + Close == line + "\n" + (Bullets(msgs[1..]) + Close);
      SplitLinesAppend(line, Bullets(msgs[1..]) + Close);
      BulletsLines(msgs[1..]);
      assert BulletLines(msgs) == [line] + BulletLines(msgs[1..]);
    }
  }

  /**
   * Reading the text of a MultiError back line by line gives "[", one
   * bullet per error in order, and "]", as long as no message spans lines.
   */
  lemma MultiErrorLines(errs: seq<FieldError>)
    requires forall i :: 0 <= i < |errs| ==> '\n' !in Message(errs[i])
    ensures SplitLines(ErrorText(MultiError(errs))) == ["["] + BulletLines(Messages(errs)) + ["]"]
  {
    var msgs := Messages(errs);
    var body := Bullets(msgs) + Close;
    assert Open == "[" + "\n";
    assert ErrorText(MultiError(errs)) == Open + body;
    SplitLinesAppend("[", body);
    BulletsLines(msgs);
  }
}

/** The header of an official ACES CTL file (`get_transform_info`,
    `getTransformInfo`): line 2 carries the transform ID and line 3 the user
    name, each as `// <Tag>value</Tag>`, and the body is scanned for the
    full/legal range switch and, from 1.1 on, for an SSTS output transform.
    The file is given as its lines (with or without their line ends). */
module CtlHeader {
  import opened Py
  import opened PyStr

  /** `line[3:].split('<')[1].split('>')[1]`: the text after the first '>'
      of the segment between the first and the second '<', skipping the
      three comment characters; IndexError when either delimiter is
      missing. */
  function HeaderField(line: string): (r: Result<string>)
    ensures r.Err? ==> r.error == IndexError
    ensures r.Err? <==> '<' !in From(line, 3) ||
                        (SplitHasTwoPieces(From(line, 3), '<');
                         '>' !in Split(From(line, 3), '<')[1])
    ensures r.Ok? ==> '<' !in r.value && '>' !in r.value
  {
    var segments := Split(From(line, 3), '<');
    SplitHasTwoPieces(From(line, 3), '<');
    if |segments| < 2 then Err(IndexError)
    else
      var parts := Split(segments[1], '>');
      SplitHasTwoPieces(segments[1], '>');
      SplitPiecesFree(From(line, 3), '<');
      SplitPiecesFree(segments[1], '>');
      if |parts| < 2 then Err(IndexError)
      else
        assert forall c :: c in parts[1] ==> c in segments[1] by {
          JoinSplit(segments[1], '>');
          JoinInParts(['>'], parts, 1);
        }
        Ok(parts[1])
  }

  /** Every character of a piece occurs in the joined string. */
  lemma {:induction false} JoinInParts(sep: string, parts: seq<string>, k: nat)
    requires k < |parts|
    ensures forall c :: c in parts[k] ==> c in Join(sep, parts)
    decreases |parts|
  {
    if |parts| > 1 {
      if k > 0 {
        JoinInParts(sep, parts[1..], k - 1);
        assert parts[1..][k - 1] == parts[k];
      }
      assert Join(sep, parts) == parts[0] + sep + Join(sep, parts[1..]);
    }
  }

  /** On a well-formed header line `// <Tag>value</Tag>...` the field is the
      value between the tags. */
  lemma HeaderFieldShape(comment: string, lead: string, tag: string, value: string, rest: string)
    requires |comment| == 3
    requires '<' !in lead && '<' !in tag && '>' !in tag && '<' !in value && '>' !in value
    ensures HeaderField(comment + lead + "<" + tag + ">" + value + "<" + rest) == Ok(value)
  {
    var line := comment + lead + "<" + tag + ">" + value + "<" + rest;
    assert From(line, 3) == lead + ['<'] + (tag + ['>'] + value + ['<'] + rest);
    SplitAfterHead(lead, '<', tag + ['>'] + value + ['<'] + rest);
    assert '<' !in tag + ['>'] + value;
    SplitAfterHead(tag + ['>'] + value, '<', rest);
    SplitAfterHead(tag, '>', value);
    SplitWithoutSep(value, '>');
    assert tag + ['>'] + value + ['<'] + rest == (tag + ['>'] + value) + ['<'] + rest;
  }

  /** The ID and user-name fields of a header. */
  datatype Names = Names(transformId: string, userName: string, userNamePrefix: string)

  /** The ID is line 2's field, stripped; line 3's field is cut at its first
      '-': the stripped text before it is the user-name prefix, and the rest
      rejoined with '-' and stripped is the user name. IndexError when there
      are fewer than three lines or a field is missing. */
  function ParseNames(lines: seq<string>): (r: Result<Names>)
    ensures r.Err? ==> r.error == IndexError
    ensures r.Err? <==> |lines| < 3 || HeaderField(lines[1]).Err? || HeaderField(lines[2]).Err?
    ensures r.Ok? ==> r.value.transformId == Strip(HeaderField(lines[1]).value)
  {
    if |lines| < 2 then Err(IndexError)
    else
      var id :- HeaderField(lines[1]);
      if |lines| < 3 then Err(IndexError)
      else
        var field :- HeaderField(lines[2]);
        var pieces := Split(field, '-');
        Ok(Names(Strip(id), Strip(Join("-", pieces[1..])), Strip(pieces[0])))
  }

  /** The user name keeps the dashes after the first one: a field
      `prefix-name` gives the prefix and the name, each stripped. */
  lemma UserNameSplit(lines: seq<string>, prefix: string, name: string)
    requires |lines| >= 3 && HeaderField(lines[1]).Ok?
    requires '-' !in prefix
    requires HeaderField(lines[2]) == Ok(prefix + "-" + name)
    ensures ParseNames(lines).Ok?
    ensures ParseNames(lines).value.userNamePrefix == Strip(prefix)
    ensures ParseNames(lines).value.userName == Strip(name)
  {
    SplitAfterHead(prefix, '-', name);
    assert prefix + "-" + name == prefix + ['-'] + name;
    JoinSplit(name, '-');
  }

  /** Without a '-' the whole field is the prefix and the user name is
      empty. */
  lemma UserNameWithoutDash(lines: seq<string>, field: string)
    requires |lines| >= 3 && HeaderField(lines[1]).Ok?
    requires '-' !in field
    requires HeaderField(lines[2]) == Ok(field)
    ensures ParseNames(lines).Ok?
    ensures ParseNames(lines).value.userNamePrefix == Strip(field)
    ensures ParseNames(lines).value.userName == ""
  {
    SplitWithoutSep(field, '-');
  }

  const LegalRangeTrue := "input uniform bool legalRange = true"
  const LegalRangeZero := "input varying int legalRange = 0"
  const SstsCall := "outputTransform("
  const InverseSstsCall := "invOutputTransform("

  /** A stripped line declaring the 1.1/1.2 full/legal switch. */
  predicate DeclaresLegalSwitch(line: string)
  {
    Contains(Strip(line), LegalRangeTrue)
  }

  /** A stripped line that calls an SSTS output transform. */
  predicate CallsSsts(line: string)
  {
    Contains(Strip(line), SstsCall) || Contains(Strip(line), InverseSstsCall)
  }

  /** The 1.1/1.2 flag loop: the switch flag is set by any line containing
      the legalRange declaration; the SSTS flag only by a line that does not
      (the test is an `elif`) but calls an output transform. */
  method ScanFlags(lines: seq<string>) returns (fullLegal: bool, ssts: bool)
    ensures fullLegal <==> exists i :: 0 <= i < |lines| && DeclaresLegalSwitch(lines[i])
    ensures ssts <==> exists i :: 0 <= i < |lines| && !DeclaresLegalSwitch(lines[i]) && CallsSsts(lines[i])
  {
    fullLegal, ssts := false, false;
    for i := 0 to |lines|
      invariant fullLegal <==> exists j :: 0 <= j < i && DeclaresLegalSwitch(lines[j])
      invariant ssts <==> exists j :: 0 <= j < i && !DeclaresLegalSwitch(lines[j]) && CallsSsts(lines[j])
    {
      var line := Strip(lines[i]);
      if Contains(line, LegalRangeTrue) {
        fullLegal := true;
      } else if Contains(line, SstsCall) || Contains(line, InverseSstsCall) {
        ssts := true;
      }
    }
  }

  /** The 1.0.x flag loop: the switch is present iff some stripped line is
      exactly the `legalRange = 0` declaration; the scan stops at the first
      one. */
  method ScanLegalExact(lines: seq<string>) returns (fullLegal: bool)
    ensures fullLegal <==> exists i :: 0 <= i < |lines| && Strip(lines[i]) == LegalRangeZero
  {
    fullLegal := false;
    var i := 0;
    while i < |lines|
      invariant i <= |lines|
      invariant !fullLegal && forall j :: 0 <= j < i ==> Strip(lines[j]) != LegalRangeZero
    {
      if Strip(lines[i]) == LegalRangeZero {
        fullLegal := true;
        break;
      }
      i := i + 1;
    }
  }

  /** Which header reader: 1.1/1.2 (substring flags and SSTS), 1.0.0 to
      1.0.3 (exact legalRange line), or the root 1.0.0 script (names only). */
  datatype Reader = SubstringFlags | ExactFlag | NamesOnly

  /** Everything a header reader reports; flags a reader does not have are
      false. */
  datatype TransformInfo = TransformInfo(names: Names, fullLegal: bool, ssts: bool)

  /** What a reader reports for a file, stated with the flag predicates. */
  function HeaderInfo(reader: Reader, lines: seq<string>): Result<TransformInfo>
  {
    var names :- ParseNames(lines);
    Ok(TransformInfo(
      names,
      match reader
      case SubstringFlags => exists i :: 0 <= i < |lines| && DeclaresLegalSwitch(lines[i])
      case ExactFlag => exists i :: 0 <= i < |lines| && Strip(lines[i]) == LegalRangeZero
      case NamesOnly => false,
      reader.SubstringFlags? &&
      exists i :: 0 <= i < |lines| && !DeclaresLegalSwitch(lines[i]) && CallsSsts(lines[i])))
  }

  /** `get_transform_info` of each version: the names, then the flags. */
  method GetTransformInfo(reader: Reader, lines: seq<string>) returns (r: Result<TransformInfo>)
    ensures r == HeaderInfo(reader, lines)
    ensures r.Err? <==> ParseNames(lines).Err?
    ensures r.Err? ==> r.error == IndexError
    ensures r.Ok? ==> r.value.names == ParseNames(lines).value
    ensures r.Ok? ==> (r.value.fullLegal <==>
                        match reader
                        case SubstringFlags => exists i :: 0 <= i < |lines| && DeclaresLegalSwitch(lines[i])
                        case ExactFlag => exists i :: 0 <= i < |lines| && Strip(lines[i]) == LegalRangeZero
                        case NamesOnly => false)
    ensures r.Ok? ==> (r.value.ssts <==>
                        reader.SubstringFlags? &&
                        exists i :: 0 <= i < |lines| && !DeclaresLegalSwitch(lines[i]) && CallsSsts(lines[i]))
  {
    var names := ParseNames(lines);
    if names.Err? {
      return Err(names.error);
    }
    var fullLegal, ssts := false, false;
    match reader {
      case SubstringFlags =>
        fullLegal, ssts := ScanFlags(lines);
      case ExactFlag =>
        fullLegal := ScanLegalExact(lines);
      case NamesOnly =>
    }
    r := Ok(TransformInfo(names.value, fullLegal, ssts));
  }

  /** A 1.0.x file that declares its switch the 1.1/1.2 way is read as
      having none, and the other way round: the two readers recognise
      different declarations. */
  lemma ReadersDisagree(line: string)
    requires Strip(line) == LegalRangeZero
    ensures !DeclaresLegalSwitch(line)
  {
    assert !Contains(LegalRangeZero, LegalRangeTrue) by {
      ShorterLacks(LegalRangeZero, LegalRangeTrue);
    }
  }

  /** A string shorter than sub does not contain it. */
  lemma {:induction false} ShorterLacks(s: string, sub: string)
    requires |s| < |sub|
    ensures !Contains(s, sub)
    decreases |s|
  {
    if s != [] {
      ShorterLacks(s[1..], sub);
    }
  }
}

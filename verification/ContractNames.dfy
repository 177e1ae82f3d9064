/** The download names of contracts (contract.service.ts), over strings of UTF-16 code units. */
module ContractNames {
  import opened Common

  type CodeUnit = u: int | 0 <= u < 0x10000

  type JsString = seq<CodeUnit>

  datatype NameError = UriError

  const COMMA_SPACE: JsString := [0x2c, 0x20]
  const SPACED_DASH: JsString := [0x20, 0x2d, 0x20]
  /** "Signed", "No Cost" and ".pdf". */
  const SIGNED_WORD: JsString := [0x53, 0x69, 0x67, 0x6e, 0x65, 0x64]
  const NO_COST_WORDS: JsString := [0x4e, 0x6f, 0x20, 0x43, 0x6f, 0x73, 0x74]
  const PDF: JsString := [0x2e, 0x70, 0x64, 0x66]

  const SIGNED: JsString := SPACED_DASH + SIGNED_WORD
  const NO_COST: JsString := SPACED_DASH + NO_COST_WORDS
  const NO_COST_SIGNED: JsString := NO_COST + SIGNED

  const NAME_LIMIT := 100

  // ---------------------------------------------------------------- percent-encoding

  predicate IsLead(u: CodeUnit) { 0xd800 <= u < 0xdc00 }

  predicate IsTrail(u: CodeUnit) { 0xdc00 <= u < 0xe000 }

  /** ASCII letters, digits and `-_.!~*'()`, the characters `encodeURIComponent` keeps. */
  predicate Unreserved(u: CodeUnit) {
    || 0x41 <= u <= 0x5a || 0x61 <= u <= 0x7a || 0x30 <= u <= 0x39
    || u == 0x2d || u == 0x5f || u == 0x2e || u == 0x21 || u == 0x7e || u == 0x2a || u == 0x27 || u == 0x28 || u == 0x29
  }

  /** Three characters for every UTF-8 byte of an escaped character that is not a surrogate. */
  function UnitCost(u: CodeUnit): nat {
    if Unreserved(u) then 1 else if u < 0x80 then 3 else if u < 0x800 then 6 else 9
  }

  /** The encoded length of what is put together from two pieces; if one cannot be encoded, neither can the whole. */
  function Plus(a: Result<nat, NameError>, b: Result<nat, NameError>): Result<nat, NameError> {
    if a.Err? then a else if b.Err? then b else Ok(a.value + b.value)
  }

  /** The length of `encodeURIComponent(s)` (ECMA-262 section 19.2.6); a surrogate pair is four escaped bytes. */
  function EncodedLength(s: JsString): Result<nat, NameError> {
    if s == [] then Ok(0)
    else if IsTrail(s[0]) then Err(UriError)
    else if IsLead(s[0]) then
      if |s| < 2 || !IsTrail(s[1]) then Err(UriError) else Plus(Ok(12), EncodedLength(s[2..]))
    else Plus(Ok(UnitCost(s[0])), EncodedLength(s[1..]))
  }

  /** Encoding never shortens a string. */
  lemma {:induction false} EncodingNeverShortens(s: JsString)
    ensures EncodedLength(s).Ok? ==> EncodedLength(s).value >= |s|
    decreases |s|
  {
    if s != [] {
      if IsLead(s[0]) && |s| >= 2 {
        EncodingNeverShortens(s[2..]);
      } else {
        EncodingNeverShortens(s[1..]);
      }
    }
  }

  // ---------------------------------------------------------------- the names

  function Take(s: JsString, n: nat): JsString {
    if |s| <= n then s else s[..n]
  }

  function Extension(isPdf: bool): JsString {
    if isPdf then PDF else []
  }

  /** `buildContractName`. */
  function BuildContractName(isPdf: bool, firstName: JsString, lastName: JsString, contractName: JsString,
                             appendString: JsString): JsString
  {
    lastName + COMMA_SPACE + firstName + SPACED_DASH + contractName + appendString + Extension(isPdf)
  }

  /** `getSlicedContractName`; it throws when the full name cannot be encoded. */
  function GetSlicedContractName(isPdf: bool, lastName: JsString, firstName: JsString, contractName: JsString,
                                 appendString: JsString): Result<JsString, NameError>
  {
    var fileName := BuildContractName(isPdf, firstName, lastName, contractName, appendString);
    match EncodedLength(fileName)
    case Err(e) => Err(e)
    case Ok(n) =>
      if n >= NAME_LIMIT
      then Ok(BuildContractName(isPdf, Take(firstName, 1), Take(lastName, 20), Take(contractName, 25), appendString))
      else Ok(fileName)
  }

  function BuildGspName(isPdf: bool, fullName: JsString, contractName: JsString, appendString: JsString): JsString {
    fullName + SPACED_DASH + contractName + appendString + Extension(isPdf)
  }

  /** `getSlicedGSPPrimaryContractName`. */
  function GetSlicedGspName(isPdf: bool, fullName: JsString, contractName: JsString, appendString: JsString)
    : Result<JsString, NameError>
  {
    var fileName := BuildGspName(isPdf, fullName, contractName, appendString);
    match EncodedLength(fileName)
    case Err(e) => Err(e)
    case Ok(n) =>
      if n >= NAME_LIMIT then Ok(BuildGspName(isPdf, Take(fullName, 20), Take(contractName, 40), appendString))
      else Ok(fileName)
  }

  /** The suffixes the callers pass. */
  predicate CallerSuffix(s: JsString) {
    s == [] || s == SIGNED || s == NO_COST || s == NO_COST_SIGNED
  }

  predicate EndsWith(s: JsString, end: JsString) {
    |end| <= |s| && s[|s| - |end|..] == end
  }

  lemma EndsWithTwo(head: JsString, suffix: JsString, extension: JsString)
    ensures EndsWith(head + suffix + extension, suffix + extension)
    ensures |head + suffix + extension| == |head| + |suffix| + |extension|
  {
    assert head + suffix + extension == head + (suffix + extension);
  }

  /** Every name is shorter than 100 characters and keeps its suffix and extension. */
  lemma NamesAreShort(isPdf: bool, lastName: JsString, firstName: JsString, contractName: JsString, suffix: JsString)
    requires CallerSuffix(suffix)
    ensures var r := GetSlicedContractName(isPdf, lastName, firstName, contractName, suffix);
            r.Ok? ==> |r.value| < NAME_LIMIT && EndsWith(r.value, suffix + Extension(isPdf))
  {
    var full := BuildContractName(isPdf, firstName, lastName, contractName, suffix);
    EncodingNeverShortens(full);
    BuiltNameEnds(isPdf, firstName, lastName, contractName, suffix);
    BuiltNameEnds(isPdf, Take(firstName, 1), Take(lastName, 20), Take(contractName, 25), suffix);
  }

  lemma BuiltNameEnds(isPdf: bool, firstName: JsString, lastName: JsString, contractName: JsString, suffix: JsString)
    ensures EndsWith(BuildContractName(isPdf, firstName, lastName, contractName, suffix), suffix + Extension(isPdf))
    ensures |BuildContractName(isPdf, firstName, lastName, contractName, suffix)|
         == |lastName| + 2 + |firstName| + 3 + |contractName| + |suffix| + |Extension(isPdf)|
  {
    EndsWithTwo(lastName + COMMA_SPACE + firstName + SPACED_DASH + contractName, suffix, Extension(isPdf));
  }

  lemma GspNamesAreShort(isPdf: bool, fullName: JsString, contractName: JsString, suffix: JsString)
    requires CallerSuffix(suffix)
    ensures var r := GetSlicedGspName(isPdf, fullName, contractName, suffix);
            r.Ok? ==> |r.value| < NAME_LIMIT && EndsWith(r.value, suffix + Extension(isPdf))
  {
    EncodingNeverShortens(BuildGspName(isPdf, fullName, contractName, suffix));
    GspNameEnds(isPdf, fullName, contractName, suffix);
    GspNameEnds(isPdf, Take(fullName, 20), Take(contractName, 40), suffix);
  }

  lemma GspNameEnds(isPdf: bool, fullName: JsString, contractName: JsString, suffix: JsString)
    ensures EndsWith(BuildGspName(isPdf, fullName, contractName, suffix), suffix + Extension(isPdf))
    ensures |BuildGspName(isPdf, fullName, contractName, suffix)|
         == |fullName| + 3 + |contractName| + |suffix| + |Extension(isPdf)|
  {
    EndsWithTwo(fullName + SPACED_DASH + contractName, suffix, Extension(isPdf));
  }

  datatype Kind = ChangeOrderName | NoCostChangeOrderName | PrimaryName

  function SuffixOf(kind: Kind, completed: bool): JsString {
    match kind
    case NoCostChangeOrderName => if completed then NO_COST_SIGNED else NO_COST
    case _ => if completed then SIGNED else []
  }

  /** The name `getContractDownloadData` gives: it passes the first name where the slicer expects the last. */
  function DownloadName(kind: Kind, completed: bool, firstName: JsString, lastName: JsString, contractName: JsString)
    : Result<JsString, NameError>
  {
    GetSlicedContractName(true, firstName, lastName, contractName, SuffixOf(kind, completed))
  }

  /** So a download is filed under the first name, cut to 20 characters, followed by at least the last initial. */
  lemma DownloadNamesStartWithFirstName(kind: Kind, completed: bool, firstName: JsString, lastName: JsString,
                                        contractName: JsString)
    ensures var r := DownloadName(kind, completed, firstName, lastName, contractName);
            r.Ok? ==>
              && |r.value| < NAME_LIMIT && EndsWith(r.value, SuffixOf(kind, completed) + PDF)
              && (firstName + COMMA_SPACE + lastName <= r.value
                  || Take(firstName, 20) + COMMA_SPACE + Take(lastName, 1) <= r.value)
  {
    var suffix := SuffixOf(kind, completed);
    NamesAreShort(true, firstName, lastName, contractName, suffix);
    BuiltNameStarts(true, lastName, firstName, contractName, suffix);
    BuiltNameStarts(true, Take(lastName, 1), Take(firstName, 20), Take(contractName, 25), suffix);
  }

  lemma BuiltNameStarts(isPdf: bool, firstName: JsString, lastName: JsString, contractName: JsString, suffix: JsString)
    ensures lastName + COMMA_SPACE + firstName <= BuildContractName(isPdf, firstName, lastName, contractName, suffix)
  {
    var start := lastName + COMMA_SPACE + firstName;
    assert start <= start + SPACED_DASH + contractName + suffix + Extension(isPdf);
  }

  // ---------------------------------------------------------------- the encoded limit

  /** Encoding goes piece by piece, unless a cut runs through a surrogate pair. */
  lemma {:induction false} EncodedAppend(a: JsString, b: JsString)
    requires b != [] ==> !IsTrail(b[0]) || EncodedLength(a).Ok?
    ensures EncodedLength(a + b) == Plus(EncodedLength(a), EncodedLength(b))
    decreases |a|
  {
    if a == [] {
      assert a + b == b;
    } else if IsLead(a[0]) {
      if |a| >= 2 && IsTrail(a[1]) {
        EncodedPair(a);
        EncodedAppend(a[2..], b);
        AppendPair(a, b);
      } else {
        AppendLoneLead(a, b);
      }
    } else if !IsTrail(a[0]) {
      EncodedUnit(a);
      EncodedAppend(a[1..], b);
      AppendUnit(a, b);
    }
  }

  lemma AppendPair(a: JsString, b: JsString)
    requires |a| >= 2 && IsLead(a[0]) && IsTrail(a[1])
    requires EncodedLength(a[2..] + b) == Plus(EncodedLength(a[2..]), EncodedLength(b))
    ensures EncodedLength(a + b) == Plus(EncodedLength(a), EncodedLength(b))
  {
    DropFromFirst(a, b, 2);
    EncodedPair(a);
    EncodedPair(a + b);
    PlusAssociates(Ok(12), EncodedLength(a[2..]), EncodedLength(b));
  }

  lemma AppendUnit(a: JsString, b: JsString)
    requires a != [] && !IsLead(a[0]) && !IsTrail(a[0])
    requires EncodedLength(a[1..] + b) == Plus(EncodedLength(a[1..]), EncodedLength(b))
    ensures EncodedLength(a + b) == Plus(EncodedLength(a), EncodedLength(b))
  {
    DropFromFirst(a, b, 1);
    EncodedUnit(a);
    EncodedUnit(a + b);
    PlusAssociates(Ok(UnitCost(a[0])), EncodedLength(a[1..]), EncodedLength(b));
  }

  lemma DropFromFirst(a: JsString, b: JsString, n: nat)
    requires n <= |a|
    ensures (a + b)[n..] == a[n..] + b
    ensures forall k :: 0 <= k < n ==> (a + b)[k] == a[k]
  {
  }

  lemma PlusAssociates(a: Result<nat, NameError>, b: Result<nat, NameError>, c: Result<nat, NameError>)
    ensures Plus(Plus(a, b), c) == Plus(a, Plus(b, c))
  {
  }

  lemma AppendLoneLead(a: JsString, b: JsString)
    requires a != [] && IsLead(a[0]) && (|a| >= 2 ==> !IsTrail(a[1])) && (b != [] ==> !IsTrail(b[0]))
    ensures EncodedLength(a + b) == EncodedLength(a) == Err(UriError)
  {
    assert |a| == 1 && b != [] ==> (a + b)[1] == b[0];
  }

  lemma EncodedPair(s: JsString)
    requires |s| >= 2 && IsLead(s[0]) && IsTrail(s[1])
    ensures EncodedLength(s) == Plus(Ok(12), EncodedLength(s[2..]))
  {
  }

  lemma EncodedUnit(s: JsString)
    requires s != [] && !IsLead(s[0]) && !IsTrail(s[0])
    ensures EncodedLength(s) == Plus(Ok(UnitCost(s[0])), EncodedLength(s[1..]))
  {
  }

  /** Two pieces around a separator. */
  lemma EncodedJoin(a: JsString, separator: JsString, b: JsString)
    requires separator != [] && !IsTrail(separator[0]) && EncodedLength(separator).Ok?
    ensures EncodedLength(a + separator + b)
         == Plus(EncodedLength(a), Plus(EncodedLength(separator), EncodedLength(b)))
  {
    assert a + separator + b == a + (separator + b);
    EncodedAppend(separator, b);
    EncodedAppend(a, separator + b);
  }

  lemma {:induction false} EncodedUniform(s: JsString, cost: nat)
    requires forall k :: 0 <= k < |s| ==> !IsLead(s[k]) && !IsTrail(s[k]) && UnitCost(s[k]) == cost
    ensures EncodedLength(s) == Ok(|s| * cost)
    decreases |s|
  {
    if s != [] {
      EncodedUniform(s[1..], cost);
      assert |s| * cost == (|s| - 1) * cost + cost;
    }
  }

  /** What the suffixes and the extension add to the encoded length. */
  function TailLength(isPdf: bool, suffix: JsString): nat {
    (if suffix == [] then 0 else if suffix == SIGNED then 13 else if suffix == NO_COST then 16 else 29)
    + if isPdf then 4 else 0
  }

  lemma EncodedSpacing()
    ensures EncodedLength(COMMA_SPACE) == Ok(6) && EncodedLength(SPACED_DASH) == Ok(7)
  {
    assert SPACED_DASH == [0x20] + [0x2d, 0x20] && [0x2d, 0x20] == [0x2d] + [0x20];
    EncodedUniform(COMMA_SPACE, 3);
    EncodedUniform([0x20], 3);
    EncodedUniform([0x2d], 1);
    EncodedAppend([0x2d], [0x20]);
    EncodedAppend([0x20], [0x2d, 0x20]);
  }

  lemma EncodedWords()
    ensures EncodedLength(SIGNED_WORD) == Ok(6) && EncodedLength(NO_COST_WORDS) == Ok(9) && EncodedLength(PDF) == Ok(4)
  {
    var cost: JsString := [0x43, 0x6f, 0x73, 0x74];
    assert NO_COST_WORDS == [0x4e, 0x6f] + ([0x20] + cost);
    EncodedUniform(SIGNED_WORD, 1);
    EncodedUniform(PDF, 1);
    EncodedUniform([0x4e, 0x6f], 1);
    EncodedUniform([0x20], 3);
    EncodedUniform(cost, 1);
    EncodedAppend([0x20], cost);
    EncodedAppend([0x4e, 0x6f], [0x20] + cost);
  }

  lemma EncodedTail(isPdf: bool, suffix: JsString)
    requires CallerSuffix(suffix)
    ensures EncodedLength(suffix + Extension(isPdf)) == Ok(TailLength(isPdf, suffix))
  {
    EncodedSpacing();
    EncodedWords();
    EncodedAppend(SPACED_DASH, SIGNED_WORD);
    EncodedAppend(SPACED_DASH, NO_COST_WORDS);
    EncodedAppend(NO_COST, SIGNED);
    EncodedAppend(suffix, Extension(isPdf));
  }

  /** The encoded length of a name whose parts are given, cut or not; an error if one of them cannot be encoded. */
  function NameLength(isPdf: bool, lastName: JsString, firstName: JsString, contractName: JsString, suffix: JsString)
    : Result<nat, NameError>
  {
    Plus(EncodedLength(lastName),
         Plus(EncodedLength(firstName), Plus(EncodedLength(contractName), Ok(13 + TailLength(isPdf, suffix)))))
  }

  lemma EncodedName(isPdf: bool, lastName: JsString, firstName: JsString, contractName: JsString, suffix: JsString)
    requires CallerSuffix(suffix)
    ensures EncodedLength(BuildContractName(isPdf, firstName, lastName, contractName, suffix))
         == NameLength(isPdf, lastName, firstName, contractName, suffix)
  {
    var named := contractName + (suffix + Extension(isPdf));
    EncodedSpacing();
    EncodedNamed(isPdf, contractName, suffix);
    NameParts(isPdf, lastName, firstName, contractName, suffix);
    EncodedParts(lastName, COMMA_SPACE, firstName, SPACED_DASH, named);
  }

  lemma NameParts(isPdf: bool, lastName: JsString, firstName: JsString, contractName: JsString, suffix: JsString)
    ensures BuildContractName(isPdf, firstName, lastName, contractName, suffix)
         == lastName + COMMA_SPACE + (firstName + SPACED_DASH + (contractName + (suffix + Extension(isPdf))))
  {
    var head, rest := lastName + COMMA_SPACE, contractName + (suffix + Extension(isPdf));
    assert head + (firstName + SPACED_DASH + rest) == head + firstName + SPACED_DASH + rest;
  }

  lemma EncodedParts(a: JsString, ab: JsString, b: JsString, bc: JsString, c: JsString)
    requires ab != [] && !IsTrail(ab[0]) && EncodedLength(ab).Ok?
    requires bc != [] && !IsTrail(bc[0]) && EncodedLength(bc).Ok?
    ensures EncodedLength(a + ab + (b + bc + c))
         == Plus(EncodedLength(a), Plus(EncodedLength(b), Plus(EncodedLength(c),
                 Ok(EncodedLength(ab).value + EncodedLength(bc).value))))
  {
    EncodedJoin(b, bc, c);
    EncodedJoin(a, ab, b + bc + c);
  }

  lemma EncodedNamed(isPdf: bool, contractName: JsString, suffix: JsString)
    requires CallerSuffix(suffix)
    ensures EncodedLength(contractName + (suffix + Extension(isPdf)))
         == Plus(EncodedLength(contractName), Ok(TailLength(isPdf, suffix)))
  {
    EncodedTail(isPdf, suffix);
    EncodedAppend(contractName, suffix + Extension(isPdf));
  }

  predicate Under(length: Result<nat, NameError>) {
    length.Ok? && length.value < NAME_LIMIT
  }

  /**
    When the slicer answers, and when its answer meets the limit it tests for: if the parts encode to few enough
    characters, or their cuts do. A cut through a surrogate pair leaves a name that cannot be encoded.
   */
  lemma SlicedNameEncodesShortExactly(isPdf: bool, lastName: JsString, firstName: JsString, contractName: JsString,
                                      suffix: JsString)
    requires CallerSuffix(suffix)
    ensures var r := GetSlicedContractName(isPdf, lastName, firstName, contractName, suffix);
            var full := NameLength(isPdf, lastName, firstName, contractName, suffix);
            var cut := NameLength(isPdf, Take(lastName, 20), Take(firstName, 1), Take(contractName, 25), suffix);
            && (r.Ok? <==> full.Ok?)
            && (r.Ok? ==> (Under(EncodedLength(r.value)) <==> Under(full) || Under(cut)))
  {
    EncodedName(isPdf, lastName, firstName, contractName, suffix);
    EncodedName(isPdf, Take(lastName, 20), Take(firstName, 1), Take(contractName, 25), suffix);
  }

  function GspNameLength(isPdf: bool, fullName: JsString, contractName: JsString, suffix: JsString)
    : Result<nat, NameError>
  {
    Plus(EncodedLength(fullName), Plus(EncodedLength(contractName), Ok(7 + TailLength(isPdf, suffix))))
  }

  lemma EncodedGspName(isPdf: bool, fullName: JsString, contractName: JsString, suffix: JsString)
    requires CallerSuffix(suffix)
    ensures EncodedLength(BuildGspName(isPdf, fullName, contractName, suffix))
         == GspNameLength(isPdf, fullName, contractName, suffix)
  {
    var named := contractName + (suffix + Extension(isPdf));
    EncodedSpacing();
    EncodedNamed(isPdf, contractName, suffix);
    EncodedJoin(fullName, SPACED_DASH, named);
    GspNameParts(isPdf, fullName, contractName, suffix);
  }

  lemma GspNameParts(isPdf: bool, fullName: JsString, contractName: JsString, suffix: JsString)
    ensures BuildGspName(isPdf, fullName, contractName, suffix)
         == fullName + SPACED_DASH + (contractName + (suffix + Extension(isPdf)))
  {
  }

  /** The same for grid-service names. */
  lemma SlicedGspNameEncodesShortExactly(isPdf: bool, fullName: JsString, contractName: JsString, suffix: JsString)
    requires CallerSuffix(suffix)
    ensures var r := GetSlicedGspName(isPdf, fullName, contractName, suffix);
            var full := GspNameLength(isPdf, fullName, contractName, suffix);
            var cut := GspNameLength(isPdf, Take(fullName, 20), Take(contractName, 40), suffix);
            && (r.Ok? <==> full.Ok?)
            && (r.Ok? ==> (Under(EncodedLength(r.value)) <==> Under(full) || Under(cut)))
  {
    EncodedGspName(isPdf, fullName, contractName, suffix);
    EncodedGspName(isPdf, Take(fullName, 20), Take(contractName, 40), suffix);
  }

  predicate AllUnreserved(s: JsString) {
    forall k :: 0 <= k < |s| ==> Unreserved(s[k])
  }

  predicate AllSpaces(s: JsString) {
    forall k :: 0 <= k < |s| ==> s[k] == 0x20
  }

  /** Names of unreserved characters always meet it. */
  lemma UnreservedNamesEncodeShort(isPdf: bool, lastName: JsString, firstName: JsString, contractName: JsString,
                                   suffix: JsString)
    requires CallerSuffix(suffix)
    requires AllUnreserved(lastName) && AllUnreserved(firstName) && AllUnreserved(contractName)
    ensures var r := GetSlicedContractName(isPdf, lastName, firstName, contractName, suffix);
            r.Ok? && Under(EncodedLength(r.value))
  {
    SlicedNameEncodesShortExactly(isPdf, lastName, firstName, contractName, suffix);
    EncodedUniform(lastName, 1);
    EncodedUniform(firstName, 1);
    EncodedUniform(contractName, 1);
    EncodedUniform(Take(lastName, 20), 1);
    EncodedUniform(Take(firstName, 1), 1);
    EncodedUniform(Take(contractName, 25), 1);
  }

  /** Long names of spaces never do: they are sliced and still encode to 100 characters or more. */
  lemma SlicedNamesMayEncodeLong(isPdf: bool, lastName: JsString, firstName: JsString, contractName: JsString,
                                 suffix: JsString)
    requires CallerSuffix(suffix)
    requires |lastName| >= 20 && |firstName| >= 1 && |contractName| >= 25
    requires AllSpaces(lastName) && AllSpaces(firstName) && AllSpaces(contractName)
    ensures var r := GetSlicedContractName(isPdf, lastName, firstName, contractName, suffix);
            r.Ok? && EncodedLength(r.value).Ok? && EncodedLength(r.value).value >= NAME_LIMIT
  {
    EncodedName(isPdf, lastName, firstName, contractName, suffix);
    EncodedName(isPdf, Take(lastName, 20), Take(firstName, 1), Take(contractName, 25), suffix);
    EncodedUniform(lastName, 3);
    EncodedUniform(firstName, 3);
    EncodedUniform(contractName, 3);
    EncodedUniform(Take(lastName, 20), 3);
    EncodedUniform(Take(firstName, 1), 3);
    EncodedUniform(Take(contractName, 25), 3);
  }

  /** Nor does a long name whose twentieth and twenty-first units are a surrogate pair: it cannot be encoded. */
  lemma CutThroughPairCannotBeEncoded(isPdf: bool, head: JsString, lead: CodeUnit, trail: CodeUnit, rest: JsString,
                                      firstName: JsString, contractName: JsString, suffix: JsString)
    requires CallerSuffix(suffix) && |head| == 19 && IsLead(lead) && IsTrail(trail) && |rest| >= 100
    requires AllUnreserved(head) && AllUnreserved(rest) && AllUnreserved(firstName) && AllUnreserved(contractName)
    ensures var r := GetSlicedContractName(isPdf, head + [lead, trail] + rest, firstName, contractName, suffix);
            r.Ok? && EncodedLength(r.value).Err?
  {
    var lastName := head + [lead, trail] + rest;
    EncodedUniform(head, 1);
    EncodedUniform(rest, 1);
    EncodedUniform(firstName, 1);
    EncodedUniform(contractName, 1);
    EncodedPair([lead, trail]);
    EncodedAppend(head, [lead, trail]);
    EncodedAppend(head + [lead, trail], rest);
    EncodedName(isPdf, lastName, firstName, contractName, suffix);
    assert Take(lastName, 20) == head + [lead];
    AppendLoneLead([lead], []);
    EncodedAppend(head, [lead]);
    EncodedName(isPdf, head + [lead], Take(firstName, 1), Take(contractName, 25), suffix);
  }

  // ---------------------------------------------------------------- the names, character by character

  /** The name is written out in full when that encodes under 100 characters, and otherwise from the parts cut short. */
  lemma NamesAre(isPdf: bool, lastName: JsString, firstName: JsString, contractName: JsString, suffix: JsString)
    requires CallerSuffix(suffix)
    ensures var r := GetSlicedContractName(isPdf, lastName, firstName, contractName, suffix);
            var full := NameLength(isPdf, lastName, firstName, contractName, suffix);
            var pdf: JsString := if isPdf then [0x2e, 0x70, 0x64, 0x66] else [];
            && (full.Ok? && full.value < 100 ==> r == Ok(
                  lastName + [0x2c, 0x20] + firstName + [0x20, 0x2d, 0x20] + contractName + suffix + pdf))
            && (full.Ok? && full.value >= 100 ==> r == Ok(
                  lastName[..Least(|lastName|, 20)] + [0x2c, 0x20] + firstName[..Least(|firstName|, 1)]
                  + [0x20, 0x2d, 0x20] + contractName[..Least(|contractName|, 25)] + suffix + pdf))
            && (full.Err? ==> r.Err?)
  {
    EncodedName(isPdf, lastName, firstName, contractName, suffix);
    Cut(lastName, 20);
    Cut(firstName, 1);
    Cut(contractName, 25);
  }

  lemma GspNamesAre(isPdf: bool, fullName: JsString, contractName: JsString, suffix: JsString)
    requires CallerSuffix(suffix)
    ensures var r := GetSlicedGspName(isPdf, fullName, contractName, suffix);
            var full := GspNameLength(isPdf, fullName, contractName, suffix);
            var pdf: JsString := if isPdf then [0x2e, 0x70, 0x64, 0x66] else [];
            && (full.Ok? && full.value < 100 ==>
                  r == Ok(fullName + [0x20, 0x2d, 0x20] + contractName + suffix + pdf))
            && (full.Ok? && full.value >= 100 ==> r == Ok(
                  fullName[..Least(|fullName|, 20)] + [0x20, 0x2d, 0x20]
                  + contractName[..Least(|contractName|, 40)] + suffix + pdf))
            && (full.Err? ==> r.Err?)
  {
    EncodedGspName(isPdf, fullName, contractName, suffix);
    Cut(fullName, 20);
    Cut(contractName, 40);
  }

  function Least(a: nat, b: nat): (m: nat)
    ensures m <= a && m <= b
  {
    if a < b then a else b
  }

  lemma Cut(s: JsString, n: nat)
    ensures Take(s, n) == s[..Least(|s|, n)]
  {
  }

  /** One character: itself, or three for each byte of its UTF-8 form, a pair of surrogates being one of four bytes. */
  lemma EncodedCharacter(u: CodeUnit, v: CodeUnit)
    ensures var kept := 'a' as int <= u <= 'z' as int || 'A' as int <= u <= 'Z' as int || '0' as int <= u <= '9' as int
                        || u in {0x2d, 0x5f, 0x2e, 0x21, 0x7e, 0x2a, 0x27, 0x28, 0x29};
            && (kept ==> EncodedLength([u]) == Ok(1))
            && (!kept && u < 0x80 ==> EncodedLength([u]) == Ok(3))
            && (0x80 <= u < 0x800 ==> EncodedLength([u]) == Ok(6))
            && (0x800 <= u < 0xd800 || 0xe000 <= u ==> EncodedLength([u]) == Ok(9))
            && (0xd800 <= u < 0xe000 ==> EncodedLength([u]) == Err(UriError))
            && (0xd800 <= u < 0xdc00 && 0xdc00 <= v < 0xe000 ==> EncodedLength([u, v]) == Ok(12))
  {
    if !IsLead(u) && !IsTrail(u) {
      EncodedUnit([u]);
    }
    if IsLead(u) && IsTrail(v) {
      EncodedPair([u, v]);
    }
  }

  /** Change orders without cost say so, and completed contracts that they are signed. */
  lemma DownloadSuffixes(kind: Kind, completed: bool)
    ensures var dash: JsString := [0x20, 0x2d, 0x20];
            var noCost: JsString := dash + [0x4e, 0x6f, 0x20, 0x43, 0x6f, 0x73, 0x74];
            var signed: JsString := dash + [0x53, 0x69, 0x67, 0x6e, 0x65, 0x64];
            SuffixOf(kind, completed)
            == (if kind == NoCostChangeOrderName then noCost else []) + (if completed then signed else [])
  {
  }
}

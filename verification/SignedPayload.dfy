/**
 * The canonical text of a signed transaction (packages/core/src/signed-payload.ts), up to the SHA-256 digest of its bytes.
 * A value is what a caller in JavaScript may pass; the text is the one JSON.stringify gives the normalized record.
 */
module SignedPayload {
  import opened Prelude
  import Hex
  import J = Json

  /** A number is an integer or not, and has the text String gives it. */
  datatype Js =
    | JsUndefined
    | JsNull
    | JsBool(value: bool)
    | JsNumber(integer: Option<int>, digits: string)
    | JsBigInt(bigint: int)
    | JsString(text: string)
    | JsArray(items: seq<Js>)
    | JsObject(fields: map<string, Js>)

  type HexText = t: string | IsHexText(t) witness "0x"

  predicate IsLowerDigit(c: char) {
    '0' <= c <= '9' || 'a' <= c <= 'f'
  }

  predicate IsHexText(t: string) {
    |t| >= 2 && t[0] == '0' && t[1] == 'x' && forall i :: 2 <= i < |t| ==> IsLowerDigit(t[i])
  }

  datatype OutPoint = OutPoint(txHash: HexText, index: nat)

  datatype Script = Script(codeHash: HexText, hashType: string, args: HexText)

  datatype CellDep = CellDep(outPoint: OutPoint, depType: string)

  datatype Input = Input(since: nat, previousOutput: OutPoint)

  datatype Output = Output(capacity: nat, lock: Script, lockedType: Option<Script>)

  datatype Transaction = Transaction(
    version: nat,
    cellDeps: seq<CellDep>,
    headerDeps: seq<HexText>,
    inputs: seq<Input>,
    outputs: seq<Output>,
    outputsData: seq<HexText>,
    witnesses: seq<HexText>)

  // ---- What String and BigInt do -----------------------------------------------------------------------------------

  function DecimalText(n: nat): string {
    if n < 10 then ['0' + n as char] else DecimalText(n / 10) + ['0' + (n % 10) as char]
  }

  function ToText(value: Js): string
    decreases value, 0
  {
    match value
    case JsUndefined => "undefined"
    case JsNull => "null"
    case JsBool(b) => if b then "true" else "false"
    case JsNumber(_, digits) => digits
    case JsBigInt(n) => if n < 0 then "-" + DecimalText(-n) else DecimalText(n)
    case JsString(text) => text
    case JsArray(items) => JoinTexts(items, true)
    case JsObject(_) => "[object Object]"
  }

  function JoinTexts(items: seq<Js>, first: bool): string
    decreases items, 1
  {
    if items == [] then ""
    else (if first then "" else ",") + (if Missing(items[0]) then "" else ToText(items[0])) + JoinTexts(items[1..], false)
  }

  predicate Missing(value: Js) {
    value.JsUndefined? || value.JsNull?
  }

  predicate DigitsIn(base: nat, digits: string) {
    digits != "" && forall i :: 0 <= i < |digits| ==> Hex.IsDigit(digits[i]) && Hex.DigitValue(digits[i]) < base
  }

  function ValueIn(base: nat, digits: string): nat
    requires forall i :: 0 <= i < |digits| ==> Hex.IsDigit(digits[i])
  {
    if digits == "" then 0
    else ValueIn(base, digits[..|digits| - 1]) * base + Hex.DigitValue(digits[|digits| - 1])
  }

  /** The base a prefix announces. */
  function PrefixBase(text: string): Option<nat> {
    if |text| < 2 || text[0] != '0' then None
    else if text[1] == 'x' || text[1] == 'X' then Some(16)
    else if text[1] == 'o' || text[1] == 'O' then Some(8)
    else if text[1] == 'b' || text[1] == 'B' then Some(2)
    else None
  }

  /** Blank text is zero; only decimal digits may carry a sign; anything else throws. */
  function BigIntOf(text: string): Option<int> {
    var t := Trim(text);
    if t == "" then Some(0)
    else if PrefixBase(t).Some? then
      if DigitsIn(PrefixBase(t).value, t[2..]) then Some(ValueIn(PrefixBase(t).value, t[2..])) else None
    else if t[0] == '-' then if DigitsIn(10, t[1..]) then Some(-(ValueIn(10, t[1..]) as int)) else None
    else if t[0] == '+' then if DigitsIn(10, t[1..]) then Some(ValueIn(10, t[1..])) else None
    else if DigitsIn(10, t) then Some(ValueIn(10, t)) else None
  }

  // ---- Normalizers -------------------------------------------------------------------------------------------------

  function Get(value: Js, key: string): Js {
    if value.JsObject? && key in value.fields then value.fields[key] else JsUndefined
  }

  function Pick(value: Js, camel: string, snake: string): Js {
    if Get(value, camel) != JsUndefined then Get(value, camel) else Get(value, snake)
  }

  function NormalizeHex(value: Js): (hex: Option<HexText>) {
    var text := ToLower(Trim(ToText(value)));
    if Missing(value) || !IsHexText(text) then None else Some(text)
  }

  function NormalizeInteger(value: Js): Option<nat> {
    if Missing(value) then None
    else
      var parsed := match value
        case JsBigInt(n) => Some(n)
        case JsNumber(integer, _) => integer
        case _ => BigIntOf(ToText(value));
      if parsed.Some? && parsed.value >= 0 then Some(parsed.value) else None
  }

  function NormalizeOutPoint(value: Js): Option<OutPoint> {
    var txHash, index := NormalizeHex(Pick(value, "txHash", "tx_hash")), NormalizeInteger(Get(value, "index"));
    if value.JsObject? && txHash.Some? && index.Some? then Some(OutPoint(txHash.value, index.value)) else None
  }

  function NormalizeScript(value: Js): Option<Script> {
    var codeHash, hashType := NormalizeHex(Pick(value, "codeHash", "code_hash")), Pick(value, "hashType", "hash_type");
    var args := NormalizeHex(Get(value, "args"));
    if value.JsObject? && codeHash.Some? && hashType.JsString? && args.Some?
    then Some(Script(codeHash.value, hashType.text, args.value)) else None
  }

  function NormalizeCellDep(value: Js): Option<CellDep> {
    var outPoint, depType := NormalizeOutPoint(Pick(value, "outPoint", "out_point")), Pick(value, "depType", "dep_type");
    if value.JsObject? && outPoint.Some? && depType.JsString?
    then Some(CellDep(outPoint.value, if depType.text == "depGroup" then "dep_group" else depType.text)) else None
  }

  function NormalizeInput(value: Js): Option<Input> {
    var previousOutput := NormalizeOutPoint(Pick(value, "previousOutput", "previous_output"));
    var since := NormalizeInteger(Get(value, "since"));
    if value.JsObject? && previousOutput.Some? && since.Some? then Some(Input(since.value, previousOutput.value)) else None
  }

  function NormalizeOutput(value: Js): Option<Output> {
    var capacity, lock := NormalizeInteger(Get(value, "capacity")), NormalizeScript(Get(value, "lock"));
    var typeValue := Get(value, "type");
    var lockedType := if Missing(typeValue) then None else NormalizeScript(typeValue);
    if !value.JsObject? || capacity.None? || lock.None? || (!Missing(typeValue) && lockedType.None?) then None
    else Some(Output(capacity.value, lock.value, lockedType))
  }

  function NormalizeItems<T>(items: seq<Js>, item: Js -> Option<T>): Option<seq<T>> {
    if items == [] then Some([])
    else
      var before, last := NormalizeItems(items[..|items| - 1], item), item(items[|items| - 1]);
      if before.Some? && last.Some? then Some(before.value + [last.value]) else None
  }

  function NormalizeList<T>(value: Js, item: Js -> Option<T>): Option<seq<T>> {
    if value.JsArray? then NormalizeItems(value.items, item) else None
  }

  function Normalize(value: Js): Option<Transaction> {
    var version := NormalizeInteger(Get(value, "version"));
    var cellDeps := NormalizeList(Pick(value, "cellDeps", "cell_deps"), NormalizeCellDep);
    var headerDeps := NormalizeList(Pick(value, "headerDeps", "header_deps"), NormalizeHex);
    var inputs := NormalizeList(Get(value, "inputs"), NormalizeInput);
    var outputs := NormalizeList(Get(value, "outputs"), NormalizeOutput);
    var outputsData := NormalizeList(Pick(value, "outputsData", "outputs_data"), NormalizeHex);
    var witnesses := NormalizeList(Get(value, "witnesses"), NormalizeHex);
    if value.JsObject? && version.Some? && cellDeps.Some? && headerDeps.Some? && inputs.Some? && outputs.Some?
       && outputsData.Some? && witnesses.Some? && |outputs.value| == |outputsData.value|
    then Some(Transaction(version.value, cellDeps.value, headerDeps.value, inputs.value, outputs.value,
                          outputsData.value, witnesses.value))
    else None
  }

  // ---- The text ----------------------------------------------------------------------------------------------------

  function HexDigits(n: nat): (digits: string)
    ensures digits != ""
    ensures forall i :: 0 <= i < |digits| ==> IsLowerDigit(digits[i])
  {
    if n < 16 then [J.HexDigit(n)] else HexDigits(n / 16) + [J.HexDigit(n % 16)]
  }

  function IntegerJson(n: nat): J.Json {
    J.Text("0x" + HexDigits(n))
  }

  function OutPointJson(o: OutPoint): J.Json {
    J.Object([J.Member("txHash", J.Text(o.txHash)), J.Member("index", IntegerJson(o.index))])
  }

  function ScriptJson(s: Script): J.Json {
    J.Object([J.Member("codeHash", J.Text(s.codeHash)), J.Member("hashType", J.Text(s.hashType)), J.Member("args", J.Text(s.args))])
  }

  function CellDepJson(d: CellDep): J.Json {
    J.Object([J.Member("outPoint", OutPointJson(d.outPoint)), J.Member("depType", J.Text(d.depType))])
  }

  function InputJson(i: Input): J.Json {
    J.Object([J.Member("since", IntegerJson(i.since)), J.Member("previousOutput", OutPointJson(i.previousOutput))])
  }

  function OutputJson(o: Output): J.Json {
    J.Object([J.Member("capacity", IntegerJson(o.capacity)), J.Member("lock", ScriptJson(o.lock)),
              J.Member("type", if o.lockedType.Some? then ScriptJson(o.lockedType.value) else J.Null)])
  }

  function HexJson(t: HexText): J.Json {
    J.Text(t)
  }

  function ListJson<T>(items: seq<T>, item: T -> J.Json): J.Json {
    J.Array(seq(|items|, i requires 0 <= i < |items| => item(items[i])))
  }

  function TransactionJson(t: Transaction): J.Json {
    J.Object([
      J.Member("version", IntegerJson(t.version)),
      J.Member("cellDeps", ListJson(t.cellDeps, CellDepJson)),
      J.Member("headerDeps", ListJson(t.headerDeps, HexJson)),
      J.Member("inputs", ListJson(t.inputs, InputJson)),
      J.Member("outputs", ListJson(t.outputs, OutputJson)),
      J.Member("outputsData", ListJson(t.outputsData, HexJson)),
      J.Member("witnesses", ListJson(t.witnesses, HexJson))])
  }

  function Text(t: Transaction): string {
    J.Render(TransactionJson(t))
  }

  function CanonicalText(value: Js): Option<string> {
    var normalized := Normalize(value);
    if normalized.Some? then Some(Text(normalized.value)) else None
  }

  function KeysOf(j: J.Json): seq<string> {
    if j.Object? then seq(|j.members|, i requires 0 <= i < |j.members| => j.members[i].key) else []
  }

  /** The text names its members in one fixed order, whatever the order and the spelling of the record. */
  lemma MembersInOrder(t: Transaction, o: OutPoint, s: Script, d: CellDep, i: Input, out: Output)
    ensures KeysOf(TransactionJson(t))
            == ["version", "cellDeps", "headerDeps", "inputs", "outputs", "outputsData", "witnesses"]
    ensures KeysOf(OutPointJson(o)) == ["txHash", "index"]
    ensures KeysOf(ScriptJson(s)) == ["codeHash", "hashType", "args"]
    ensures KeysOf(CellDepJson(d)) == ["outPoint", "depType"]
    ensures KeysOf(InputJson(i)) == ["since", "previousOutput"]
    ensures KeysOf(OutputJson(out)) == ["capacity", "lock", "type"]
  {
  }

  /** A number is written without leading zeros, so that one number has one text. */
  lemma {:induction false} IntegerTextIsMinimal(n: nat)
    ensures HexDigits(n) == "0" || HexDigits(n)[0] != '0'
    ensures HexDigits(n) == "0" <==> n == 0
    ensures IntegerJson(n) == J.Text("0x" + HexDigits(n))
  {
    if n >= 16 {
      IntegerTextIsMinimal(n / 16);
      assert HexDigits(n)[0] == HexDigits(n / 16)[0];
    }
  }

  // ---- One text for one transaction --------------------------------------------------------------------------------

  lemma {:induction false} HexDigitsAreInjective(a: nat, b: nat)
    requires HexDigits(a) == HexDigits(b)
    ensures a == b
  {
    var s, t := HexDigits(a), HexDigits(b);
    LastHexDigit(a);
    LastHexDigit(b);
    J.HexDigitIsInjective(a % 16, b % 16);
    if a >= 16 {
      HexDigitsAreInjective(a / 16, b / 16);
    }
  }

  lemma LastHexDigit(n: nat)
    ensures HexDigits(n)[|HexDigits(n)| - 1] == J.HexDigit(n % 16)
    ensures n < 16 <==> |HexDigits(n)| == 1
    ensures n >= 16 ==> HexDigits(n)[..|HexDigits(n)| - 1] == HexDigits(n / 16)
  {
  }

  lemma IntegerJsonIsInjective(a: nat, b: nat)
    requires IntegerJson(a) == IntegerJson(b)
    ensures a == b
  {
    assert ("0x" + HexDigits(a))[2..] == HexDigits(a) && ("0x" + HexDigits(b))[2..] == HexDigits(b);
    HexDigitsAreInjective(a, b);
  }

  lemma OutPointJsonIsInjective(a: OutPoint, b: OutPoint)
    requires OutPointJson(a) == OutPointJson(b)
    ensures a == b
  {
    var x, y := OutPointJson(a).members, OutPointJson(b).members;
    assert x[0] == y[0] && x[1] == y[1];
    IntegerJsonIsInjective(a.index, b.index);
  }

  lemma ScriptJsonIsInjective(a: Script, b: Script)
    requires ScriptJson(a) == ScriptJson(b)
    ensures a == b
  {
    var x, y := ScriptJson(a).members, ScriptJson(b).members;
    assert x[0] == y[0] && x[1] == y[1] && x[2] == y[2];
  }

  lemma CellDepJsonIsInjective(a: CellDep, b: CellDep)
    requires CellDepJson(a) == CellDepJson(b)
    ensures a == b
  {
    var x, y := CellDepJson(a).members, CellDepJson(b).members;
    assert x[0] == y[0] && x[1] == y[1];
    OutPointJsonIsInjective(a.outPoint, b.outPoint);
  }

  lemma InputJsonIsInjective(a: Input, b: Input)
    requires InputJson(a) == InputJson(b)
    ensures a == b
  {
    var x, y := InputJson(a).members, InputJson(b).members;
    assert x[0] == y[0] && x[1] == y[1];
    IntegerJsonIsInjective(a.since, b.since);
    OutPointJsonIsInjective(a.previousOutput, b.previousOutput);
  }

  lemma OutputJsonIsInjective(a: Output, b: Output)
    requires OutputJson(a) == OutputJson(b)
    ensures a == b
  {
    var x, y := OutputJson(a).members, OutputJson(b).members;
    assert x[0] == y[0] && x[1] == y[1] && x[2] == y[2];
    IntegerJsonIsInjective(a.capacity, b.capacity);
    ScriptJsonIsInjective(a.lock, b.lock);
    if a.lockedType.Some? && b.lockedType.Some? {
      ScriptJsonIsInjective(a.lockedType.value, b.lockedType.value);
    }
  }

  lemma ListJsonIsInjective<T>(a: seq<T>, b: seq<T>, item: T -> J.Json)
    requires forall x, y :: item(x) == item(y) ==> x == y
    requires ListJson(a, item) == ListJson(b, item)
    ensures a == b
  {
    var x, y := ListJson(a, item).items, ListJson(b, item).items;
    assert |a| == |x| == |y| == |b|;
    forall i | 0 <= i < |a|
      ensures a[i] == b[i]
    {
      assert x[i] == item(a[i]) && y[i] == item(b[i]);
    }
  }

  lemma TransactionJsonIsInjective(a: Transaction, b: Transaction)
    requires TransactionJson(a) == TransactionJson(b)
    ensures a == b
  {
    var x, y := TransactionJson(a).members, TransactionJson(b).members;
    assert x[0] == y[0] && x[1] == y[1] && x[2] == y[2] && x[3] == y[3] && x[4] == y[4] && x[5] == y[5] && x[6] == y[6];
    IntegerJsonIsInjective(a.version, b.version);
    forall c, d | CellDepJson(c) == CellDepJson(d) ensures c == d { CellDepJsonIsInjective(c, d); }
    forall c, d | InputJson(c) == InputJson(d) ensures c == d { InputJsonIsInjective(c, d); }
    forall c, d | OutputJson(c) == OutputJson(d) ensures c == d { OutputJsonIsInjective(c, d); }
    ListJsonIsInjective(a.cellDeps, b.cellDeps, CellDepJson);
    ListJsonIsInjective(a.headerDeps, b.headerDeps, HexJson);
    ListJsonIsInjective(a.inputs, b.inputs, InputJson);
    ListJsonIsInjective(a.outputs, b.outputs, OutputJson);
    ListJsonIsInjective(a.outputsData, b.outputsData, HexJson);
    ListJsonIsInjective(a.witnesses, b.witnesses, HexJson);
  }

  /** Different transactions have different texts: not one witness, role or number can change unseen. */
  lemma TextIsInjective(a: Transaction, b: Transaction)
    ensures Text(a) == Text(b) <==> a == b
  {
    J.RenderIsInjective(TransactionJson(a), TransactionJson(b));
    if Text(a) == Text(b) {
      TransactionJsonIsInjective(a, b);
    }
  }

  // ---- The ways to write a transaction -----------------------------------------------------------------------------

  /** The number in this base, behind a zero and one of these letters. */
  predicate InBase(text: string, letters: string, base: nat, n: nat) {
    && |text| > 2 && text[0] == '0' && text[1] in letters
    && DigitsIn(base, text[2..]) && ValueIn(base, text[2..]) == n
  }

  /** Hexadecimal, octal or binary text behind its prefix. */
  predicate PrefixForm(text: string, n: nat) {
    InBase(text, "xX", 16, n) || InBase(text, "oO", 8, n) || InBase(text, "bB", 2, n)
  }

  /** Decimal text is read as the number it is the text of. */
  lemma {:induction false} DecimalReadsBack(n: nat)
    ensures DigitsIn(10, DecimalText(n)) && ValueIn(10, DecimalText(n)) == n
  {
    var text := DecimalText(n);
    if n >= 10 {
      DecimalReadsBack(n / 10);
      assert text[..|text| - 1] == DecimalText(n / 10);
    } else {
      assert text[..0] == "";
    }
  }

  /** Decimal text, with leading zeros or not, with a plus sign or not; a minus sign only before zero. */
  predicate DecimalForm(text: string, n: nat) {
    || (DigitsIn(10, text) && ValueIn(10, text) == n)
    || (text != "" && text[0] == '+' && DigitsIn(10, text[1..]) && ValueIn(10, text[1..]) == n)
    || (text != "" && text[0] == '-' && DigitsIn(10, text[1..]) && ValueIn(10, text[1..]) == n == 0)
  }

  /** A big integer, an integral number, or a value whose text, trimmed, is blank for zero or has one of these forms. */
  predicate WritesInteger(value: Js, n: nat) {
    match value
    case JsUndefined => false
    case JsNull => false
    case JsBigInt(bigint) => bigint == n
    case JsNumber(integer, _) => integer == Some(n)
    case _ =>
      var text := Trim(ToText(value));
      (text == "" && n == 0) || PrefixForm(text, n) || DecimalForm(text, n)
  }

  /** Hexadecimal text in any case. */
  predicate WritesHex(value: Js, hex: HexText) {
    !Missing(value) && ToLower(Trim(ToText(value))) == hex
  }

  /** The record has the field under its camelCase name, or else under its snake_case name; undefined counts as absent. */
  predicate Writes(value: Js, camel: string, snake: string, field: Js -> bool) {
    value.JsObject? && if Get(value, camel) != JsUndefined then field(Get(value, camel)) else field(Get(value, snake))
  }

  predicate WritesOutPoint(value: Js, o: OutPoint) {
    && Writes(value, "txHash", "tx_hash", (f: Js) => WritesHex(f, o.txHash))
    && Writes(value, "index", "index", (f: Js) => WritesInteger(f, o.index))
  }

  predicate WritesText(value: Js, text: string) {
    value == JsString(text)
  }

  predicate WritesScript(value: Js, s: Script) {
    && Writes(value, "codeHash", "code_hash", (f: Js) => WritesHex(f, s.codeHash))
    && Writes(value, "hashType", "hash_type", (f: Js) => WritesText(f, s.hashType))
    && Writes(value, "args", "args", (f: Js) => WritesHex(f, s.args))
  }

  /** The older spelling of "dep_group" is read as the newer one, and is never a type of its own. */
  predicate WritesDepType(value: Js, depType: string) {
    (depType != "depGroup" && WritesText(value, depType)) || (depType == "dep_group" && WritesText(value, "depGroup"))
  }

  predicate WritesCellDep(value: Js, d: CellDep) {
    && Writes(value, "outPoint", "out_point", (f: Js) => WritesOutPoint(f, d.outPoint))
    && Writes(value, "depType", "dep_type", (f: Js) => WritesDepType(f, d.depType))
  }

  predicate WritesInput(value: Js, i: Input) {
    && Writes(value, "since", "since", (f: Js) => WritesInteger(f, i.since))
    && Writes(value, "previousOutput", "previous_output", (f: Js) => WritesOutPoint(f, i.previousOutput))
  }

  predicate WritesOutput(value: Js, o: Output) {
    && Writes(value, "capacity", "capacity", (f: Js) => WritesInteger(f, o.capacity))
    && Writes(value, "lock", "lock", (f: Js) => WritesScript(f, o.lock))
    && (o.lockedType.None? ==> Missing(Get(value, "type")))
    && (o.lockedType.Some? ==> Writes(value, "type", "type", (f: Js) => WritesScript(f, o.lockedType.value)))
  }

  predicate WritesList<T>(value: Js, items: seq<T>, item: (Js, T) -> bool) {
    value.JsArray? && |value.items| == |items| && forall i :: 0 <= i < |items| ==> item(value.items[i], items[i])
  }

  predicate WritesTransaction(value: Js, t: Transaction) {
    && |t.outputs| == |t.outputsData|
    && Writes(value, "version", "version", (f: Js) => WritesInteger(f, t.version))
    && Writes(value, "cellDeps", "cell_deps", (f: Js) => WritesList(f, t.cellDeps, WritesCellDep))
    && Writes(value, "headerDeps", "header_deps", (f: Js) => WritesList(f, t.headerDeps, WritesHex))
    && Writes(value, "inputs", "inputs", (f: Js) => WritesList(f, t.inputs, WritesInput))
    && Writes(value, "outputs", "outputs", (f: Js) => WritesList(f, t.outputs, WritesOutput))
    && Writes(value, "outputsData", "outputs_data", (f: Js) => WritesList(f, t.outputsData, WritesHex))
    && Writes(value, "witnesses", "witnesses", (f: Js) => WritesList(f, t.witnesses, WritesHex))
  }

  lemma DecimalHasNoPrefix(text: string)
    requires DigitsIn(10, text)
    ensures PrefixBase(text).None? && text[0] != '+' && text[0] != '-'
  {
    assert forall i :: 0 <= i < |text| ==> '0' <= text[i] <= '9';
  }

  lemma TextFormsExactly(text: string, n: nat)
    requires Trim(text) == text
    ensures BigIntOf(text) == Some(n) <==> (text == "" && n == 0) || PrefixForm(text, n) || DecimalForm(text, n)
  {
    if DigitsIn(10, text) {
      DecimalHasNoPrefix(text);
    }
  }

  lemma {:induction false} TrimTwice(text: string)
    ensures Trim(Trim(text)) == Trim(text)
  {
    var start := TrimStart(text);
    TrimStartEnds(text);
    TrimEndEnds(start);
    if Trim(text) != "" {
      assert Trim(text)[0] == start[0];
      TrimKeepsTight(Trim(text));
    }
  }

  lemma {:induction false} TrimStartEnds(text: string)
    ensures TrimStart(text) != "" ==> !IsSpace(TrimStart(text)[0])
  {
    if text != "" && IsSpace(text[0]) {
      TrimStartEnds(text[1..]);
    }
  }

  lemma {:induction false} TrimEndEnds(text: string)
    ensures TrimEnd(text) != "" ==> !IsSpace(TrimEnd(text)[|TrimEnd(text)| - 1]) && TrimEnd(text)[0] == text[0]
    ensures |TrimEnd(text)| <= |text|
  {
    if text != "" && IsSpace(text[|text| - 1]) {
      TrimEndEnds(text[..|text| - 1]);
    }
  }

  /** A value is read as an integer if and only if it writes it in one of the forms BigInt accepts. */
  lemma IntegerFormsExactly(value: Js, n: nat)
    ensures NormalizeInteger(value) == Some(n) <==> WritesInteger(value, n)
  {
    if !value.JsBigInt? && !value.JsNumber? && !Missing(value) {
      var text := Trim(ToText(value));
      TrimTwice(ToText(value));
      TextFormsExactly(text, n);
      assert BigIntOf(ToText(value)) == BigIntOf(text);
    }
  }

  lemma OutPointFormsExactly(value: Js, o: OutPoint)
    ensures NormalizeOutPoint(value) == Some(o) <==> WritesOutPoint(value, o)
  {
    IntegerFormsExactly(Get(value, "index"), o.index);
  }

  lemma ScriptFormsExactly(value: Js, s: Script)
    ensures NormalizeScript(value) == Some(s) <==> WritesScript(value, s)
  {
  }

  lemma CellDepFormsExactly(value: Js, d: CellDep)
    ensures NormalizeCellDep(value) == Some(d) <==> WritesCellDep(value, d)
  {
    OutPointFormsExactly(Pick(value, "outPoint", "out_point"), d.outPoint);
    assert "depGroup"[3] != "dep_group"[3];
  }

  lemma InputFormsExactly(value: Js, i: Input)
    ensures NormalizeInput(value) == Some(i) <==> WritesInput(value, i)
  {
    IntegerFormsExactly(Get(value, "since"), i.since);
    OutPointFormsExactly(Pick(value, "previousOutput", "previous_output"), i.previousOutput);
  }

  lemma OutputFormsExactly(value: Js, o: Output)
    ensures NormalizeOutput(value) == Some(o) <==> WritesOutput(value, o)
  {
    IntegerFormsExactly(Get(value, "capacity"), o.capacity);
    ScriptFormsExactly(Get(value, "lock"), o.lock);
    if o.lockedType.Some? {
      ScriptFormsExactly(Get(value, "type"), o.lockedType.value);
    }
  }

  lemma {:induction false} ItemFormsExactly<T>(values: seq<Js>, items: seq<T>, item: (Js, T) -> bool, normalize: Js -> Option<T>)
    requires forall v, x :: item(v, x) <==> normalize(v) == Some(x)
    ensures NormalizeItems(values, normalize) == Some(items) <==>
            |values| == |items| && forall i :: 0 <= i < |items| ==> item(values[i], items[i])
  {
    if values != [] {
      var n := |values| - 1;
      if |items| == |values| {
        ItemFormsExactly(values[..n], items[..n], item, normalize);
        assert items == items[..n] + [items[n]];
        assert item(values[n], items[n]) <==> normalize(values[n]) == Some(items[n]);
      } else if NormalizeItems(values, normalize).Some? {
        NormalizedItems(values, normalize);
      }
    }
  }

  lemma ListFormsExactly<T>(value: Js, items: seq<T>, item: (Js, T) -> bool, normalize: Js -> Option<T>)
    requires forall v, x :: item(v, x) <==> normalize(v) == Some(x)
    ensures NormalizeList(value, normalize) == Some(items) <==> WritesList(value, items, item)
  {
    if value.JsArray? {
      ItemFormsExactly(value.items, items, item, normalize);
    }
  }

  lemma ListsFormsExactly(value: Js, t: Transaction)
    ensures NormalizeList(Pick(value, "cellDeps", "cell_deps"), NormalizeCellDep) == Some(t.cellDeps)
            <==> WritesList(Pick(value, "cellDeps", "cell_deps"), t.cellDeps, WritesCellDep)
    ensures NormalizeList(Pick(value, "headerDeps", "header_deps"), NormalizeHex) == Some(t.headerDeps)
            <==> WritesList(Pick(value, "headerDeps", "header_deps"), t.headerDeps, WritesHex)
    ensures NormalizeList(Get(value, "inputs"), NormalizeInput) == Some(t.inputs)
            <==> WritesList(Get(value, "inputs"), t.inputs, WritesInput)
    ensures NormalizeList(Get(value, "outputs"), NormalizeOutput) == Some(t.outputs)
            <==> WritesList(Get(value, "outputs"), t.outputs, WritesOutput)
    ensures NormalizeList(Pick(value, "outputsData", "outputs_data"), NormalizeHex) == Some(t.outputsData)
            <==> WritesList(Pick(value, "outputsData", "outputs_data"), t.outputsData, WritesHex)
    ensures NormalizeList(Get(value, "witnesses"), NormalizeHex) == Some(t.witnesses)
            <==> WritesList(Get(value, "witnesses"), t.witnesses, WritesHex)
  {
    forall v, x ensures WritesCellDep(v, x) <==> NormalizeCellDep(v) == Some(x) { CellDepFormsExactly(v, x); }
    forall v, x ensures WritesInput(v, x) <==> NormalizeInput(v) == Some(x) { InputFormsExactly(v, x); }
    forall v, x ensures WritesOutput(v, x) <==> NormalizeOutput(v) == Some(x) { OutputFormsExactly(v, x); }
    ListFormsExactly(Pick(value, "cellDeps", "cell_deps"), t.cellDeps, WritesCellDep, NormalizeCellDep);
    ListFormsExactly(Pick(value, "headerDeps", "header_deps"), t.headerDeps, WritesHex, NormalizeHex);
    ListFormsExactly(Get(value, "inputs"), t.inputs, WritesInput, NormalizeInput);
    ListFormsExactly(Get(value, "outputs"), t.outputs, WritesOutput, NormalizeOutput);
    ListFormsExactly(Pick(value, "outputsData", "outputs_data"), t.outputsData, WritesHex, NormalizeHex);
    ListFormsExactly(Get(value, "witnesses"), t.witnesses, WritesHex, NormalizeHex);
  }

  /** A value is read as a transaction if and only if it writes it: these forms and no others are accepted. */
  lemma FormsExactly(value: Js, t: Transaction)
    ensures Normalize(value) == Some(t) <==> WritesTransaction(value, t)
  {
    IntegerFormsExactly(Get(value, "version"), t.version);
    ListsFormsExactly(value, t);
  }

  /** Two records have one text exactly when they write one transaction. */
  lemma OneTextPerTransaction(a: Js, b: Js, s: Transaction, t: Transaction)
    requires WritesTransaction(a, s) && WritesTransaction(b, t)
    ensures CanonicalText(a).Some? && CanonicalText(b).Some?
    ensures CanonicalText(a) == CanonicalText(b) <==> s == t
  {
    FormsExactly(a, s);
    FormsExactly(b, t);
    TextIsInjective(s, t);
  }

  /** Changing one witness changes the text, whatever form either record has. */
  lemma ChangedWitnessChangesText(a: Js, b: Js, t: Transaction, i: nat, witness': HexText)
    requires i < |t.witnesses| && witness' != t.witnesses[i]
    requires WritesTransaction(a, t) && WritesTransaction(b, t.(witnesses := t.witnesses[i := witness']))
    ensures CanonicalText(a) != CanonicalText(b)
  {
    var changed := t.(witnesses := t.witnesses[i := witness']);
    assert changed.witnesses[i] != t.witnesses[i];
    OneTextPerTransaction(a, b, t, changed);
  }

  // ---- The text is one of the ways to write it ---------------------------------------------------------------------

  function Parsed(j: J.Json): Js
    decreases j, 0
  {
    match j
    case Null => JsNull
    case Bool(b) => JsBool(b)
    case Number(digits) => JsNumber(None, digits)
    case Text(text) => JsString(text)
    case Array(items) => JsArray(ParsedItems(items))
    case Object(members) => JsObject(ParsedMembers(members))
  }

  function ParsedItems(items: seq<J.Json>): (values: seq<Js>)
    ensures |values| == |items| && forall i :: 0 <= i < |items| ==> values[i] == Parsed(items[i])
    decreases items, 1
  {
    if items == [] then [] else [Parsed(items[0])] + ParsedItems(items[1..])
  }

  /** JSON.parse keeps the last of several members with one key. */
  function ParsedMembers(members: seq<J.Member>): map<string, Js>
    decreases members, 1
  {
    if members == [] then map[]
    else ParsedMembers(members[..|members| - 1])[members[|members| - 1].key := Parsed(members[|members| - 1].value)]
  }

  lemma {:induction false} ParsedMember(members: seq<J.Member>, i: nat)
    requires i < |members| && forall j :: i < j < |members| ==> members[j].key != members[i].key
    ensures members[i].key in ParsedMembers(members) && ParsedMembers(members)[members[i].key] == Parsed(members[i].value)
  {
    if i < |members| - 1 {
      ParsedMember(members[..|members| - 1], i);
    }
  }

  lemma {:induction false} HexDigitsHaveValue(n: nat)
    ensures DigitsIn(16, HexDigits(n)) && ValueIn(16, HexDigits(n)) == n
  {
    LastHexDigit(n);
    if n >= 16 {
      HexDigitsHaveValue(n / 16);
    }
  }

  lemma TrimKeepsTight(text: string)
    requires text != "" && !IsSpace(text[0]) && !IsSpace(text[|text| - 1])
    ensures Trim(text) == text
  {
  }

  lemma CanonicalIntegerIsWritten(n: nat)
    ensures WritesInteger(Parsed(IntegerJson(n)), n)
  {
    var text := "0x" + HexDigits(n);
    HexDigitsHaveValue(n);
    TrimKeepsTight(text);
    assert text[2..] == HexDigits(n);
  }

  lemma CanonicalHexIsWritten(h: HexText)
    ensures WritesHex(Parsed(HexJson(h)), h)
  {
    TrimKeepsTight(h);
  }

  lemma FieldIsWritten(members: seq<J.Member>, i: nat, camel: string, snake: string, field: Js -> bool)
    requires i < |members| && members[i].key == camel
    requires forall j :: i < j < |members| ==> members[j].key != camel
    requires field(Parsed(members[i].value))
    ensures Writes(Parsed(J.Object(members)), camel, snake, field)
  {
    ParsedMember(members, i);
  }

  lemma CanonicalOutPointIsWritten(o: OutPoint)
    ensures WritesOutPoint(Parsed(OutPointJson(o)), o)
  {
    var members := OutPointJson(o).members;
    CanonicalHexIsWritten(o.txHash);
    CanonicalIntegerIsWritten(o.index);
    FieldIsWritten(members, 0, "txHash", "tx_hash", (f: Js) => WritesHex(f, o.txHash));
    FieldIsWritten(members, 1, "index", "index", (f: Js) => WritesInteger(f, o.index));
  }

  lemma CanonicalScriptIsWritten(s: Script)
    ensures WritesScript(Parsed(ScriptJson(s)), s)
  {
    var members := ScriptJson(s).members;
    CanonicalHexIsWritten(s.codeHash);
    CanonicalHexIsWritten(s.args);
    FieldIsWritten(members, 0, "codeHash", "code_hash", (f: Js) => WritesHex(f, s.codeHash));
    FieldIsWritten(members, 1, "hashType", "hash_type", (f: Js) => WritesText(f, s.hashType));
    FieldIsWritten(members, 2, "args", "args", (f: Js) => WritesHex(f, s.args));
  }

  lemma CanonicalCellDepIsWritten(d: CellDep)
    requires d.depType != "depGroup"
    ensures WritesCellDep(Parsed(CellDepJson(d)), d)
  {
    var members := CellDepJson(d).members;
    CanonicalOutPointIsWritten(d.outPoint);
    FieldIsWritten(members, 0, "outPoint", "out_point", (f: Js) => WritesOutPoint(f, d.outPoint));
    FieldIsWritten(members, 1, "depType", "dep_type", (f: Js) => WritesDepType(f, d.depType));
  }

  lemma CanonicalInputIsWritten(i: Input)
    ensures WritesInput(Parsed(InputJson(i)), i)
  {
    var members := InputJson(i).members;
    CanonicalIntegerIsWritten(i.since);
    CanonicalOutPointIsWritten(i.previousOutput);
    FieldIsWritten(members, 0, "since", "since", (f: Js) => WritesInteger(f, i.since));
    FieldIsWritten(members, 1, "previousOutput", "previous_output", (f: Js) => WritesOutPoint(f, i.previousOutput));
  }

  lemma CanonicalOutputIsWritten(o: Output)
    ensures WritesOutput(Parsed(OutputJson(o)), o)
  {
    var members := OutputJson(o).members;
    CanonicalIntegerIsWritten(o.capacity);
    CanonicalScriptIsWritten(o.lock);
    FieldIsWritten(members, 0, "capacity", "capacity", (f: Js) => WritesInteger(f, o.capacity));
    FieldIsWritten(members, 1, "lock", "lock", (f: Js) => WritesScript(f, o.lock));
    ParsedMember(members, 2);
    if o.lockedType.Some? {
      CanonicalScriptIsWritten(o.lockedType.value);
      FieldIsWritten(members, 2, "type", "type", (f: Js) => WritesScript(f, o.lockedType.value));
    }
  }

  lemma CanonicalListIsWritten<T>(items: seq<T>, item: T -> J.Json, written: (Js, T) -> bool)
    requires forall i :: 0 <= i < |items| ==> written(Parsed(item(items[i])), items[i])
    ensures WritesList(Parsed(ListJson(items, item)), items, written)
  {
    var list := ListJson(items, item);
    assert forall i :: 0 <= i < |items| ==> list.items[i] == item(items[i]);
  }

  /** What normalizing promises of a transaction besides its field types. */
  predicate WellFormed(t: Transaction) {
    |t.outputs| == |t.outputsData| && forall i :: 0 <= i < |t.cellDeps| ==> t.cellDeps[i].depType != "depGroup"
  }

  lemma CanonicalListsAreWritten(t: Transaction)
    requires WellFormed(t)
    ensures WritesList(Parsed(ListJson(t.cellDeps, CellDepJson)), t.cellDeps, WritesCellDep)
    ensures WritesList(Parsed(ListJson(t.headerDeps, HexJson)), t.headerDeps, WritesHex)
    ensures WritesList(Parsed(ListJson(t.inputs, InputJson)), t.inputs, WritesInput)
    ensures WritesList(Parsed(ListJson(t.outputs, OutputJson)), t.outputs, WritesOutput)
    ensures WritesList(Parsed(ListJson(t.outputsData, HexJson)), t.outputsData, WritesHex)
    ensures WritesList(Parsed(ListJson(t.witnesses, HexJson)), t.witnesses, WritesHex)
  {
    forall h: HexText ensures WritesHex(Parsed(HexJson(h)), h) { CanonicalHexIsWritten(h); }
    forall d: CellDep | d.depType != "depGroup" ensures WritesCellDep(Parsed(CellDepJson(d)), d) { CanonicalCellDepIsWritten(d); }
    forall i ensures WritesInput(Parsed(InputJson(i)), i) { CanonicalInputIsWritten(i); }
    forall o ensures WritesOutput(Parsed(OutputJson(o)), o) { CanonicalOutputIsWritten(o); }
    CanonicalListIsWritten(t.cellDeps, CellDepJson, WritesCellDep);
    CanonicalListIsWritten(t.headerDeps, HexJson, WritesHex);
    CanonicalListIsWritten(t.inputs, InputJson, WritesInput);
    CanonicalListIsWritten(t.outputs, OutputJson, WritesOutput);
    CanonicalListIsWritten(t.outputsData, HexJson, WritesHex);
    CanonicalListIsWritten(t.witnesses, HexJson, WritesHex);
  }

  predicate DistinctKeys(members: seq<J.Member>) {
    forall i, j :: 0 <= i < j < |members| ==> members[i].key != members[j].key
  }

  lemma TransactionKeysDiffer(t: Transaction)
    ensures DistinctKeys(TransactionJson(t).members)
  {
    assert "version"[0] != "outputs"[0];
    var members := TransactionJson(t).members;
    assert |members[0].key| == 7 && |members[1].key| == 8 && |members[2].key| == 10 && |members[3].key| == 6
           && |members[4].key| == 7 && |members[5].key| == 11 && |members[6].key| == 9;
  }

  lemma MemberIsWritten(members: seq<J.Member>, i: nat, camel: string, snake: string, field: Js -> bool)
    requires DistinctKeys(members) && i < |members| && members[i].key == camel
    requires field(Parsed(members[i].value))
    ensures Writes(Parsed(J.Object(members)), camel, snake, field)
  {
    FieldIsWritten(members, i, camel, snake, field);
  }

  lemma VersionIsWritten(t: Transaction)
    ensures Writes(Parsed(TransactionJson(t)), "version", "version", (f: Js) => WritesInteger(f, t.version))
  {
    TransactionKeysDiffer(t);
    CanonicalIntegerIsWritten(t.version);
    MemberIsWritten(TransactionJson(t).members, 0, "version", "version", (f: Js) => WritesInteger(f, t.version));
  }

  lemma CellDepsAreWritten(t: Transaction)
    requires WellFormed(t)
    ensures Writes(Parsed(TransactionJson(t)), "cellDeps", "cell_deps", (f: Js) => WritesList(f, t.cellDeps, WritesCellDep))
  {
    TransactionKeysDiffer(t);
    CanonicalListsAreWritten(t);
    MemberIsWritten(TransactionJson(t).members, 1, "cellDeps", "cell_deps", (f: Js) => WritesList(f, t.cellDeps, WritesCellDep));
  }

  lemma HeaderDepsAreWritten(t: Transaction)
    requires WellFormed(t)
    ensures Writes(Parsed(TransactionJson(t)), "headerDeps", "header_deps", (f: Js) => WritesList(f, t.headerDeps, WritesHex))
  {
    TransactionKeysDiffer(t);
    CanonicalListsAreWritten(t);
    MemberIsWritten(TransactionJson(t).members, 2, "headerDeps", "header_deps", (f: Js) => WritesList(f, t.headerDeps, WritesHex));
  }

  lemma CellsAreWritten(t: Transaction)
    requires WellFormed(t)
    ensures var value := Parsed(TransactionJson(t));
            && Writes(value, "inputs", "inputs", (f: Js) => WritesList(f, t.inputs, WritesInput))
            && Writes(value, "outputs", "outputs", (f: Js) => WritesList(f, t.outputs, WritesOutput))
  {
    var members := TransactionJson(t).members;
    TransactionKeysDiffer(t);
    CanonicalListsAreWritten(t);
    MemberIsWritten(members, 3, "inputs", "inputs", (f: Js) => WritesList(f, t.inputs, WritesInput));
    MemberIsWritten(members, 4, "outputs", "outputs", (f: Js) => WritesList(f, t.outputs, WritesOutput));
  }

  lemma DataIsWritten(t: Transaction)
    requires WellFormed(t)
    ensures var value := Parsed(TransactionJson(t));
            && Writes(value, "outputsData", "outputs_data", (f: Js) => WritesList(f, t.outputsData, WritesHex))
            && Writes(value, "witnesses", "witnesses", (f: Js) => WritesList(f, t.witnesses, WritesHex))
  {
    var members := TransactionJson(t).members;
    TransactionKeysDiffer(t);
    CanonicalListsAreWritten(t);
    MemberIsWritten(members, 5, "outputsData", "outputs_data", (f: Js) => WritesList(f, t.outputsData, WritesHex));
    MemberIsWritten(members, 6, "witnesses", "witnesses", (f: Js) => WritesList(f, t.witnesses, WritesHex));
  }

  /** Whatever value a parser gets from the canonical text, it is read as the same transaction, hence has the same text again. */
  lemma CanonicalTextReadsBack(t: Transaction)
    requires WellFormed(t)
    ensures Normalize(Parsed(TransactionJson(t))) == Some(t)
    ensures CanonicalText(Parsed(TransactionJson(t))) == Some(Text(t))
    ensures forall j :: J.Render(j) == Text(t) ==> Normalize(Parsed(j)) == Some(t)
  {
    forall j | J.Render(j) == Text(t)
      ensures j == TransactionJson(t)
    {
      J.RenderIsInjective(j, TransactionJson(t));
    }
    VersionIsWritten(t);
    CellDepsAreWritten(t);
    HeaderDepsAreWritten(t);
    CellsAreWritten(t);
    DataIsWritten(t);
    FormsExactly(Parsed(TransactionJson(t)), t);
  }

  lemma {:induction false} NormalizedItems<T>(values: seq<Js>, item: Js -> Option<T>)
    requires NormalizeItems(values, item).Some?
    ensures var items := NormalizeItems(values, item).value;
            |items| == |values| && forall i :: 0 <= i < |items| ==> item(values[i]) == Some(items[i])
  {
    if values != [] {
      NormalizedItems(values[..|values| - 1], item);
    }
  }

  /** Whatever is accepted is a well-formed transaction, and its text is a fixed point. */
  lemma AcceptedIsCanonical(value: Js)
    requires Normalize(value).Some?
    ensures var t := Normalize(value).value;
            WellFormed(t) && CanonicalText(Parsed(TransactionJson(t))) == CanonicalText(value)
  {
    var t := Normalize(value).value;
    NormalizedItems(Pick(value, "cellDeps", "cell_deps").items, NormalizeCellDep);
    CanonicalTextReadsBack(t);
  }

  // ---- As it runs --------------------------------------------------------------------------------------------------

  method NormalizeArray<T>(value: Js, item: Js -> Option<T>) returns (result: Option<seq<T>>)
    ensures result == NormalizeList(value, item)
    ensures result.Some? <==> value.JsArray? && forall i :: 0 <= i < |value.items| ==> item(value.items[i]).Some?
  {
    if !value.JsArray? {
      return None;
    }
    var list := [];
    for k := 0 to |value.items|
      invariant NormalizeItems(value.items[..k], item) == Some(list)
      invariant forall i :: 0 <= i < k ==> item(value.items[i]).Some?
    {
      assert value.items[..k + 1][..k] == value.items[..k];
      var normalized := item(value.items[k]);
      if normalized.None? {
        RefusedItemRefusesAll(value.items, item, k);
        return None;
      }
      list := list + [normalized.value];
    }
    assert value.items[..|value.items|] == value.items;
    result := Some(list);
  }

  lemma {:induction false} RefusedItemRefusesAll<T>(values: seq<Js>, item: Js -> Option<T>, k: nat)
    requires k < |values| && item(values[k]).None?
    ensures NormalizeItems(values, item).None?
  {
    if k < |values| - 1 {
      RefusedItemRefusesAll(values[..|values| - 1], item, k);
    }
  }

  method SignedPayloadText(value: Js) returns (canonical: Option<string>)
    ensures canonical == CanonicalText(value)
  {
    if !value.JsObject? {
      return None;
    }
    var version := NormalizeInteger(Get(value, "version"));
    var cellDeps := NormalizeArray(Pick(value, "cellDeps", "cell_deps"), NormalizeCellDep);
    var headerDeps := NormalizeArray(Pick(value, "headerDeps", "header_deps"), NormalizeHex);
    var inputs := NormalizeArray(Get(value, "inputs"), NormalizeInput);
    var outputs := NormalizeArray(Get(value, "outputs"), NormalizeOutput);
    var outputsData := NormalizeArray(Pick(value, "outputsData", "outputs_data"), NormalizeHex);
    var witnesses := NormalizeArray(Get(value, "witnesses"), NormalizeHex);
    if version.None? || cellDeps.None? || headerDeps.None? || inputs.None? || outputs.None? || outputsData.None?
       || witnesses.None? || |outputs.value| != |outputsData.value| {
      return None;
    }
    canonical := Some(Text(Transaction(version.value, cellDeps.value, headerDeps.value, inputs.value, outputs.value,
                                       outputsData.value, witnesses.value)));
  }
}

/** The push-notification payload built by the `/send-notification` handler
    of the notification server (index.js): the request body's fields are
    copied or defaulted with `||`, the request id is converted with
    `String`, and the Android delivery settings are fixed. */
module Notifier {

  /** The integers a double holds exactly and `String` prints digit for
      digit: at most 2^53 in magnitude. */
  type SafeInt = n: int | -9007199254740992 <= n <= 9007199254740992

  /** A value of the parsed JSON request body, as JavaScript sees it once it
      is read from the body (absent keys read as `undefined`). Numbers are
      integers of at most 2^53 in magnitude. */
  datatype Json =
    | Undefined
    | Null
    | Bool(b: bool)
    | Num(n: SafeInt)
    | Str(s: string)
    | Arr(items: seq<Json>)
    | Obj(fields: map<string, Json>)

  /** The request body: a JSON object. */
  type Body = map<string, Json>

  /** Destructuring `const { key } = req.body`. */
  function Field(body: Body, key: string): Json {
    if key in body then body[key] else Undefined
  }

  /** JavaScript truthiness: the falsy values are `undefined`, `null`,
      `false`, `0` and the empty string. */
  function Truthy(v: Json): (b: bool)
    ensures !b <==> v in {Undefined, Null, Bool(false), Num(0), Str("")}
  {
    match v
    case Undefined => false
    case Null => false
    case Bool(b) => b
    case Num(n) => n != 0
    case Str(s) => s != []
    case Arr(_) => true
    case Obj(_) => true
  }

  /** `a || b`: the left operand when truthy, else the right one. */
  function Or(a: Json, b: Json): (r: Json)
    ensures Truthy(r) <==> Truthy(a) || Truthy(b)
    ensures r == a || r == b
    ensures Truthy(a) ==> r == a
  {
    if Truthy(a) then a else b
  }

  // ---------------------------------------------------------------------------
  // String(value).

  function DigitChar(d: nat): (c: char)
    requires d < 10
    ensures '0' <= c <= '9'
  {
    "0123456789"[d]
  }

  /** The decimal digits of a natural number, most significant first, with
      no leading zero. */
  function NatDecimal(n: nat): (s: string)
    ensures |s| >= 1 && (forall k :: 0 <= k < |s| ==> '0' <= s[k] <= '9')
    ensures |s| > 1 ==> s[0] != '0'
    decreases n
  {
    if n < 10 then [DigitChar(n)] else NatDecimal(n / 10) + [DigitChar(n % 10)]
  }

  /** The number `String(n)` prints for an integer. */
  function IntDecimal(n: int): (s: string)
    ensures |s| >= 1 && (s[0] == '-' || '0' <= s[0] <= '9')
    ensures forall k :: 1 <= k < |s| ==> '0' <= s[k] <= '9'
    ensures s[0] == '-' <==> n < 0
  {
    if n < 0 then
      var t := NatDecimal(-n);
      assert forall k :: 1 <= k < |t| + 1 ==> ("-" + t)[k] == t[k - 1];
      "-" + t
    else NatDecimal(n)
  }

  /** Reading back a run of decimal digits. */
  function DigitsValue(s: string): (n: nat)
    requires forall k :: 0 <= k < |s| ==> '0' <= s[k] <= '9'
    decreases |s|
  {
    if s == [] then 0 else 10 * DigitsValue(s[..|s| - 1]) + ((s[|s| - 1] as int) - ('0' as int))
  }

  /** Reading back an optionally signed decimal. */
  function ParseDecimal(s: string): int
    requires |s| >= 1
    requires forall k :: 1 <= k < |s| ==> '0' <= s[k] <= '9'
    requires s[0] == '-' || '0' <= s[0] <= '9'
  {
    if s[0] == '-' then -(DigitsValue(s[1..]) as int) else DigitsValue(s)
  }

  lemma {:induction false} NatDecimalRoundTrip(n: nat)
    ensures DigitsValue(NatDecimal(n)) == n
    decreases n
  {
    var s := NatDecimal(n);
    if n >= 10 {
      NatDecimalRoundTrip(n / 10);
      assert s[..|s| - 1] == NatDecimal(n / 10);
      DigitCharValue(n % 10);
      assert n == 10 * (n / 10) + n % 10;
    } else {
      DigitCharValue(n);
    }
  }

  lemma DigitCharValue(d: nat)
    requires d < 10
    ensures (DigitChar(d) as int) - ('0' as int) == d
  {
  }

  /** Printing an integer and reading it back gives the integer. */
  lemma {:induction false} IntDecimalRoundTrip(n: int)
    ensures ParseDecimal(IntDecimal(n)) == n
  {
    if n < 0 {
      NatDecimalRoundTrip(-n);
      assert IntDecimal(n)[1..] == NatDecimal(-n);
    } else {
      NatDecimalRoundTrip(n);
    }
  }

  /** Distinct integer request ids print differently. */
  lemma {:induction false} IntDecimalInjective(a: int, b: int)
    ensures IntDecimal(a) == IntDecimal(b) <==> a == b
  {
    IntDecimalRoundTrip(a);
    IntDecimalRoundTrip(b);
  }

  /** The outcome of `String(value)`: a string, or a thrown TypeError. */
  datatype Printed = Printed(s: string) | Throws

  /** `String(value)` throws a TypeError on an object with its own `toString`
      key: nothing parsed from JSON is a function, so neither that key nor
      the inherited `valueOf` yields a primitive. An array throws when one of
      its elements does, since `join` converts each of them. */
  predicate ToStringThrows(v: Json) {
    match v
    case Obj(fields) => "toString" in fields
    case Arr(items) => exists i :: 0 <= i < |items| && ToStringThrows(items[i])
    case _ => false
  }

  /** `join` over converted elements: a conversion that throws aborts it,
      otherwise the strings are joined with commas. */
  function JoinPrinted(parts: seq<Printed>): (r: Printed)
    ensures r.Throws? <==> exists i :: 0 <= i < |parts| && parts[i].Throws?
    ensures r.Printed? && |parts| == 1 ==> r == parts[0]
  {
    if parts == [] then Printed([])
    else if parts[0].Throws? then Throws
    else if |parts| == 1 then parts[0]
    else
      var rest := JoinPrinted(parts[1..]);
      assert forall i :: 1 <= i < |parts| ==> parts[i] == parts[1..][i - 1];
      if rest.Throws? then Throws else Printed(parts[0].s + "," + rest.s)
  }

  /** `String(value)`. An array prints its elements joined by commas, with
      `null` and `undefined` elements as nothing; any other object prints as
      "[object Object]" unless it has its own `toString` key. */
  function JsString(v: Json): (r: Printed)
    ensures r.Throws? <==> ToStringThrows(v)
    ensures v.Str? ==> r == Printed(v.s)
    decreases v
  {
    match v
    case Undefined => Printed("undefined")
    case Null => Printed("null")
    case Bool(b) => Printed(if b then "true" else "false")
    case Num(n) => Printed(IntDecimal(n))
    case Str(s) => Printed(s)
    case Arr(items) =>
      var parts := seq(|items|, i requires 0 <= i < |items| =>
        if items[i].Undefined? || items[i].Null? then Printed("") else JsString(items[i]));
      assert forall i :: 0 <= i < |items| ==> (parts[i].Throws? <==> ToStringThrows(items[i]));
      JoinPrinted(parts)
    case Obj(fields) => if "toString" in fields then Throws else Printed("[object Object]")
  }

  /** A string converts to itself, and an integer to a decimal from which it
      can be read back. */
  lemma {:induction false} JsStringOfScalars(v: Json)
    ensures v.Str? ==> JsString(v) == Printed(v.s)
    ensures v.Num? ==> JsString(v).Printed? && ParseDecimal(JsString(v).s) == v.n
    ensures v.Undefined? ==> JsString(v) == Printed("undefined")
  {
    if v.Num? {
      IntDecimalRoundTrip(v.n);
    }
  }

  // ---------------------------------------------------------------------------
  // The message.

  datatype Notification = Notification(title: Json, body: Json)

  /** The `data` section: string-keyed custom fields. */
  datatype Data = Data(
    requestId: string,
    actionType: Json,
    serviceType: Json,
    issue: Json,
    block: Json,
    flat: Json,
    time: Json)

  datatype AndroidNotification = AndroidNotification(channelId: string, sound: string, priority: string)
  datatype Android = Android(notification: AndroidNotification, priority: string)
  datatype Message = Message(notification: Notification, data: Data, android: Android, topic: Json)

  const DefaultActionType := "new_request"
  const RequestChannel := "request_channel"
  const Ringtone := "ringtone"
  const HighPriority := "high"

  /** A data value that is neither `undefined`, `null`, `false` nor `0`: a
      truthy value, or the empty string put in as a default. */
  predicate DefinedValue(v: Json) {
    Truthy(v) || v == Str("")
  }

  /** Building the `message` object: it is built, or `String(requestId)`
      threw while the literal was evaluated. */
  datatype Built = Built(message: Message) | TypeErrorThrown

  /** The `message` object (index.js:29-52). */
  function BuildMessage(body: Body): (r: Built)
    ensures r.TypeErrorThrown? <==> ToStringThrows(Field(body, "requestId"))
    ensures r.Built? ==> Truthy(r.message.data.actionType)
    ensures r.Built? ==>
      DefinedValue(r.message.data.serviceType) && DefinedValue(r.message.data.issue)
      && DefinedValue(r.message.data.block) && DefinedValue(r.message.data.flat)
      && DefinedValue(r.message.data.time)
  {
    match JsString(Field(body, "requestId"))
    case Throws => TypeErrorThrown
    case Printed(requestId) =>
      Built(Message(
        Notification(Field(body, "title"), Field(body, "body")),
        Data(
          requestId,
          Or(Field(body, "actionType"), Str(DefaultActionType)),
          Or(Field(body, "serviceType"), Str("")),
          Or(Field(body, "issue"), Str("")),
          Or(Field(body, "block"), Str("")),
          Or(Field(body, "flat"), Str("")),
          Or(Field(body, "time"), Str(""))),
        Android(AndroidNotification(RequestChannel, Ringtone, HighPriority), HighPriority),
        Field(body, "topic")))
  }

  /** `key || ''`: a truthy value is passed through, anything else becomes
      the empty string. */
  lemma OptionalDefault(v: Json)
    ensures Truthy(v) ==> Or(v, Str("")) == v
    ensures !Truthy(v) ==> Or(v, Str("")) == Str("")
  {
  }

  /** `actionType` is the request's own when truthy, otherwise "new_request". */
  lemma {:induction false} ActionTypeDefault(body: Body)
    ensures var r, given := BuildMessage(body), Field(body, "actionType");
      r.Built? ==> r.message.data.actionType == if Truthy(given) then given else Str(DefaultActionType)
  {
  }

  /** The five optional fields default to '' when absent or falsy and are
      otherwise passed through. */
  lemma {:induction false} OptionalFieldsDefault(body: Body)
    ensures var r := BuildMessage(body);
      r.Built? ==>
      var d := r.message.data;
      d.serviceType == (if Truthy(Field(body, "serviceType")) then Field(body, "serviceType") else Str(""))
      && d.issue == (if Truthy(Field(body, "issue")) then Field(body, "issue") else Str(""))
      && d.block == (if Truthy(Field(body, "block")) then Field(body, "block") else Str(""))
      && d.flat == (if Truthy(Field(body, "flat")) then Field(body, "flat") else Str(""))
      && d.time == (if Truthy(Field(body, "time")) then Field(body, "time") else Str(""))
  {
    OptionalDefault(Field(body, "serviceType"));
    OptionalDefault(Field(body, "issue"));
    OptionalDefault(Field(body, "block"));
    OptionalDefault(Field(body, "flat"));
    OptionalDefault(Field(body, "time"));
  }

  /** An absent field is defaulted: a body without any of the optional keys
      is built, carrying the request id "undefined", "new_request" and five
      empty strings. */
  lemma {:induction false} EmptyBodyDefaults()
    ensures var r := BuildMessage(map[]);
      r.Built? && r.message.data
        == Data("undefined", Str(DefaultActionType), Str(""), Str(""), Str(""), Str(""), Str(""))
  {
  }

  /** Title, body and topic are copied unchanged, and the Android settings
      never depend on the request. */
  lemma {:induction false} PassThroughAndConstants(body: Body)
    ensures var r := BuildMessage(body);
      r.Built? ==>
      var m := r.message;
      m.notification.title == Field(body, "title") && m.notification.body == Field(body, "body")
      && m.topic == Field(body, "topic")
      && m.android == Android(AndroidNotification("request_channel", "ringtone", "high"), "high")
  {
  }

  /** Every data value the sender sees is a string whenever each optional
      field the request gives truthily is a string. */
  predicate StringOrFalsy(v: Json) {
    !Truthy(v) || v.Str?
  }

  lemma {:induction false} DataAllStrings(body: Body)
    requires StringOrFalsy(Field(body, "actionType")) && StringOrFalsy(Field(body, "serviceType"))
    requires StringOrFalsy(Field(body, "issue")) && StringOrFalsy(Field(body, "block"))
    requires StringOrFalsy(Field(body, "flat")) && StringOrFalsy(Field(body, "time"))
    ensures var r := BuildMessage(body);
      r.Built? ==>
      var d := r.message.data;
      d.actionType.Str? && d.serviceType.Str? && d.issue.Str? && d.block.Str? && d.flat.Str? && d.time.Str?
  {
  }

  /** Integer request ids always build, are told apart in `data.requestId`,
      and a string id is carried as it is. */
  lemma {:induction false} RequestIdKept(body1: Body, body2: Body)
    requires Field(body1, "requestId").Num? && Field(body2, "requestId").Num?
    ensures BuildMessage(body1).Built? && BuildMessage(body2).Built?
    ensures BuildMessage(body1).message.data.requestId == BuildMessage(body2).message.data.requestId
      <==> Field(body1, "requestId") == Field(body2, "requestId")
  {
    IntDecimalInjective(Field(body1, "requestId").n, Field(body2, "requestId").n);
  }

  /** A string request id is carried as it is. */
  lemma {:induction false} StringRequestIdKept(body: Body)
    requires Field(body, "requestId").Str?
    ensures BuildMessage(body).Built?
    ensures BuildMessage(body).message.data.requestId == Field(body, "requestId").s
  {
  }

  /** An object request id with its own `toString` key, bare or inside an
      array, makes the handler throw before anything is sent. */
  lemma {:induction false} ToStringKeyThrows(v: Json)
    requires v.Obj? && "toString" in v.fields
    ensures BuildMessage(map["requestId" := v]).TypeErrorThrown?
    ensures BuildMessage(map["requestId" := Arr([Num(1), v])]).TypeErrorThrown?
  {
    assert ToStringThrows(Arr([Num(1), v]).items[1]);
  }

  // ---------------------------------------------------------------------------
  // The response.

  datatype Response = Response(status: int, text: string)

  /** After `send`: 200 when it resolved, 500 when it threw. */
  function Respond(sent: bool): (r: Response)
    ensures r.status == 200 <==> sent
    ensures r.status == 500 <==> !sent
    ensures r.text == (if sent then "Notification sent!" else "Error sending notification")
  {
    if sent then Response(200, "Notification sent!") else Response(500, "Error sending notification")
  }

  /** What the handler does with the client: it answers after `send`, or,
      when building the message threw, its promise rejects before the `try`
      and it sends nothing itself. */
  datatype Reply = Replied(response: Response) | Rejected

  /** The `/send-notification` handler (index.js:15-61), with `sent` the
      outcome of `send` on the message it built. */
  function Handle(body: Body, sent: bool): (r: Reply)
    ensures r.Rejected? <==> ToStringThrows(Field(body, "requestId"))
    ensures r.Replied? ==> r.response.status == (if sent then 200 else 500)
  {
    match BuildMessage(body)
    case TypeErrorThrown => Rejected
    case Built(_) => Replied(Respond(sent))
  }
}

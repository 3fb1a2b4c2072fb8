/** The `push` and `notificationclick` listeners. A push merges its parsed
    JSON payload over the default notification fields with object spread; the
    click handler closes the notification and, unless the action was
    `dismiss`, focuses the first window client on the worker's origin or
    opens a new window at `/`. Showing the notification and the window calls
    are host effects, returned as values. */
module Notifications {
  import opened Base

  /** The push message's data: absent, not valid JSON (so `.json()` throws),
      or a parsed JSON value. */
  datatype PushPayload = NoPayload | Malformed | Payload(value: Json)

  const DefaultTitle: string := "TaskPilot"
  const DefaultBody: string := "Stay on track with your tasks!"

  const Defaults: map<string, Json> := map[
    "title" := JStr(DefaultTitle),
    "body" := JStr(DefaultBody),
    "icon" := JStr("/icons/icon-192.png"),
    "badge" := JStr("/icons/icon-96.png")
  ]

  /** Decimal digits of `n`, as JavaScript writes an array index as a property key. */
  function IndexKey(n: nat): (r: string)
    ensures |r| >= 1
    decreases n
  {
    var digit := ["0123456789"[n % 10]];
    if n < 10 then digit else IndexKey(n / 10) + digit
  }

  /** Own properties `{...xs}` gets from the elements of an array or the
      characters of a string, keyed from index `from` on. */
  function IndexKeyed(xs: seq<Json>, from: nat): (r: map<string, Json>)
    ensures |r| <= |xs|
    decreases |xs|
  {
    if xs == [] then map[]
    else IndexKeyed(xs[1..], from + 1)[IndexKey(from) := xs[0]]
  }

  /** The own enumerable properties object spread copies out of a parsed
      JSON value: an object's fields, an array's or a string's indices, and
      nothing from null, booleans or numbers. */
  function Spread(v: Json): map<string, Json> {
    match v
    case JObj(fields) => fields
    case JArr(items) => IndexKeyed(items, 0)
    case JStr(s) => IndexKeyed(seq(|s|, i requires 0 <= i < |s| => JStr([s[i]])), 0)
    case _ => map[]
  }

  /** `data` after the push listener: the defaults, overridden key by key by
      the payload when there is one that parses. */
  function PushData(payload: PushPayload): (d: map<string, Json>)
    ensures forall k :: k in d <==> k in Defaults || (payload.Payload? && k in Spread(payload.value))
    ensures payload.Payload? ==> forall k :: k in Spread(payload.value) ==> d[k] == Spread(payload.value)[k]
    ensures forall k :: k in Defaults && !(payload.Payload? && k in Spread(payload.value)) ==> d[k] == Defaults[k]
  {
    match payload
    case Payload(v) => Defaults + Spread(v)
    case _ => Defaults
  }

  datatype Action = Action(action: string, title: string)

  const Actions: seq<Action> := [Action("open", "Open App"), Action("dismiss", "Dismiss")]

  /** The notification shown: the title, the option fields read from `data`,
      and `data.url || '/'` as the notification's data. */
  datatype Notification = Notification(
    title: Option<Json>, body: Option<Json>, icon: Option<Json>, badge: Option<Json>,
    target: Json, actions: seq<Action>)

  function OnPush(payload: PushPayload): (n: Notification)
    ensures Truthy(Field(PushData(payload), "url")) ==> n.target == PushData(payload)["url"]
    ensures !Truthy(Field(PushData(payload), "url")) ==> n.target == JStr("/")
    ensures n.title == Field(PushData(payload), "title") && n.title.Some?
    ensures n.body == Field(PushData(payload), "body") && n.body.Some?
    ensures n.icon == Field(PushData(payload), "icon") && n.icon.Some?
    ensures n.badge == Field(PushData(payload), "badge") && n.badge.Some?
    ensures n.actions == Actions
  {
    var d := PushData(payload);
    var url := Field(d, "url");
    Notification(Field(d, "title"), Field(d, "body"), Field(d, "icon"), Field(d, "badge"),
                 if Truthy(url) then url.value else JStr("/"), Actions)
  }

  /** The default notification: what a push without a usable payload shows. */
  const DefaultNotification: Notification := Notification(
    Some(JStr(DefaultTitle)), Some(JStr(DefaultBody)),
    Some(JStr("/icons/icon-192.png")), Some(JStr("/icons/icon-96.png")),
    JStr("/"), Actions)

  /** A missing payload, one that does not parse, and the empty object all
      give the default notification. */
  lemma DefaultsWithoutUsablePayload(payload: PushPayload)
    requires payload == NoPayload || payload == Malformed || payload == Payload(JObj(map[]))
    ensures OnPush(payload) == DefaultNotification
  {
    assert PushData(payload) == Defaults;
  }

  /** A scalar payload (null, a boolean or a number) spreads no properties,
      so it also gives the default notification. */
  lemma ScalarPayloadIgnored(v: Json)
    requires v.JNull? || v.JBool? || v.JNum?
    ensures OnPush(Payload(v)) == DefaultNotification
  {
    assert PushData(Payload(v)) == Defaults;
  }

  /** An object payload overrides exactly the fields it names. */
  lemma {:induction false} ObjectPayloadOverrides(fields: map<string, Json>)
    ensures var n := OnPush(Payload(JObj(fields)));
      && n.title == Some(if "title" in fields then fields["title"] else JStr(DefaultTitle))
      && n.body == Some(if "body" in fields then fields["body"] else JStr(DefaultBody))
      && n.icon == Some(if "icon" in fields then fields["icon"] else JStr("/icons/icon-192.png"))
      && n.badge == Some(if "badge" in fields then fields["badge"] else JStr("/icons/icon-96.png"))
      && n.target == (if "url" in fields && Truthy(Some(fields["url"])) then fields["url"] else JStr("/"))
  {
    var d := PushData(Payload(JObj(fields)));
    assert "title" in Defaults && "body" in Defaults && "url" !in Defaults;
    assert "icon" in Defaults && "badge" in Defaults;
    assert Field(d, "url") == (if "url" in fields then Some(fields["url"]) else None);
  }

  /** A falsy `url` (empty string, `false`, `0`, `null`) falls back to `/`
      like a missing one. */
  lemma FalsyUrlFallsBack(fields: map<string, Json>)
    requires "url" in fields
    requires fields["url"] in {JStr(""), JBool(false), JNum(0.0), JNull}
    ensures OnPush(Payload(JObj(fields))).target == JStr("/")
  {
    ObjectPayloadOverrides(fields);
  }

  /** The window clients `clients.matchAll({ type: 'window' })` lists. A
      window client always has `focus`. */
  datatype WindowClient = WindowClient(url: string)

  /** What the click handler asks the host to do after closing the notification. */
  datatype ClickEffect = Nothing | Focus(index: nat) | OpenWindow(url: string)

  /** Index of the first client whose URL contains `origin`, or `|clients|`. */
  function FirstOnOrigin(clients: seq<WindowClient>, origin: string): (i: nat)
    ensures i <= |clients|
    ensures forall j :: 0 <= j < i ==> !Includes(clients[j].url, origin)
    ensures i < |clients| ==> Includes(clients[i].url, origin)
    decreases |clients|
  {
    if clients == [] then 0
    else if Includes(clients[0].url, origin) then 0
    else 1 + FirstOnOrigin(clients[1..], origin)
  }

  /** The `notificationclick` listener. `canOpenWindow` is whether the host
      provides `clients.openWindow`. */
  function OnNotificationClick(action: string, clients: seq<WindowClient>, origin: string, canOpenWindow: bool)
    : (e: ClickEffect)
    // Dismiss does nothing further.
    ensures action == "dismiss" ==> e == Nothing
    // Otherwise the first client on the origin is focused ...
    ensures e.Focus? <==> action != "dismiss" && exists j :: 0 <= j < |clients| && Includes(clients[j].url, origin)
    ensures e.Focus? ==>
      && e.index < |clients| && Includes(clients[e.index].url, origin)
      && forall j :: 0 <= j < e.index ==> !Includes(clients[j].url, origin)
    // ... and when there is none, a window is opened at the root, if the host can.
    ensures e.OpenWindow? <==>
      action != "dismiss" && canOpenWindow && forall j :: 0 <= j < |clients| ==> !Includes(clients[j].url, origin)
    ensures e.OpenWindow? ==> e.url == "/"
  {
    if action == "dismiss" then Nothing
    else
      var i := FirstOnOrigin(clients, origin);
      if i < |clients| then Focus(i)
      else if canOpenWindow then OpenWindow("/")
      else Nothing
  }

  /** The click handler never opens the URL a push put in the notification's
      data: with no window on the origin it opens `/` whatever that URL was. */
  lemma ClickIgnoresPushUrl(fields: map<string, Json>, origin: string)
    requires "url" in fields && fields["url"] == JStr("/tasks/today")
    ensures OnPush(Payload(JObj(fields))).target == JStr("/tasks/today")
    ensures OnNotificationClick("open", [], origin, true) == OpenWindow("/")
  {
    ObjectPayloadOverrides(fields);
  }
}

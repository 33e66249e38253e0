/** The pure mappers of the API layer (services/api.ts): the de-duplication
    of an event's ticket inventory, image-list, boolean and number coercion,
    the system fee settings, the packing of e-mail credentials, the upload-URL
    port fix, the renaming of an event update's keys, and the mapping of a
    raw promotion record (its code, link and earned amount). */
module Api {
  import opened Js
  import opened Strings
  import opened Lists
  import Url

  // ---------------------------------------------------------------------------
  // Ticket de-duplication (mapApiEventToFrontend)

  datatype MappedTicket = MappedTicket(
    id: JsValue,
    typeName: JsValue,
    price: JsValue,
    quantity: JsValue,
    sold: JsValue,
    minimumDonation: JsValue)

  /** The frontend ticket built from one inventory entry. */
  function ToTicket(inv: Record): MappedTicket {
    MappedTicket(Get(inv, "id"), Get(inv, "type"), Get(inv, "price"),
                 Get(inv, "quantity_total"), Get(inv, "quantity_sold"), Get(inv, "min_donation"))
  }

  function IdOf(inv: Record): JsValue {
    Get(inv, "id")
  }

  /** Entry k is kept: it has no (truthy) id, or no earlier entry has its id. */
  predicate FirstOfItsId(inventory: seq<Record>, k: int)
    requires 0 <= k < |inventory|
  {
    !Truthy(IdOf(inventory[k])) || forall j :: 0 <= j < k ==> IdOf(inventory[j]) != IdOf(inventory[k])
  }

  /** The de-duplicated tickets, defined without a set: the kept entries, in
      inventory order. */
  function Deduped(inventory: seq<Record>): seq<MappedTicket>
    decreases |inventory|
  {
    if inventory == [] then []
    else
      var n := |inventory| - 1;
      Deduped(inventory[..n]) + (if FirstOfItsId(inventory, n) then [ToTicket(inventory[n])] else [])
  }

  /** The truthy ids among the entries. */
  function SeenIds(inventory: seq<Record>): set<JsValue> {
    set j | 0 <= j < |inventory| && Truthy(IdOf(inventory[j])) :: IdOf(inventory[j])
  }

  /** The loop of `mapApiEventToFrontend` over `apiEvent.inventory`, with the
      `uniqueTicketIds` set. */
  method DedupTickets(inventory: seq<Record>) returns (tickets: seq<MappedTicket>)
    ensures tickets == Deduped(inventory)
  {
    var uniqueTicketIds: set<JsValue> := {};
    tickets := [];
    for i := 0 to |inventory|
      invariant uniqueTicketIds == SeenIds(inventory[..i])
      invariant tickets == Deduped(inventory[..i])
    {
      var inv := inventory[i];
      var id := IdOf(inv);
      assert inventory[..i + 1][..i] == inventory[..i];
      assert FirstOfItsId(inventory[..i + 1], i) <==> !(Truthy(id) && id in uniqueTicketIds) by {
        SeenIdsMember(inventory[..i], id);
      }
      assert SeenIds(inventory[..i + 1]) == SeenIds(inventory[..i]) + (if Truthy(id) then {id} else {});
      if Truthy(id) && id in uniqueTicketIds {
        continue;
      }
      if Truthy(id) {
        uniqueTicketIds := uniqueTicketIds + {id};
      }
      tickets := tickets + [ToTicket(inv)];
    }
    assert inventory[..|inventory|] == inventory;
  }

  lemma SeenIdsMember(inventory: seq<Record>, id: JsValue)
    ensures id in SeenIds(inventory) <==>
      Truthy(id) && exists j :: 0 <= j < |inventory| && IdOf(inventory[j]) == id
  {
  }

  /** Whether an entry is kept depends only on the entries before it. */
  lemma FirstOfItsIdPrefix(inventory: seq<Record>, n: int, k: int)
    requires 0 <= k < n <= |inventory|
    ensures FirstOfItsId(inventory[..n], k) == FirstOfItsId(inventory, k)
  {
    assert forall j :: 0 <= j <= k ==> inventory[..n][j] == inventory[j];
  }

  /** Every ticket comes from a kept entry: an entry without an id, or the
      first of the entries sharing an id. */
  lemma {:induction false} DedupedFromKept(inventory: seq<Record>)
    ensures forall t :: t in Deduped(inventory) ==>
      exists k :: 0 <= k < |inventory| && FirstOfItsId(inventory, k) && t == ToTicket(inventory[k])
    decreases |inventory|
  {
    if inventory != [] {
      var n := |inventory| - 1;
      var front := inventory[..n];
      DedupedFromKept(front);
      forall t | t in Deduped(front)
        ensures exists k :: 0 <= k < |inventory| && FirstOfItsId(inventory, k) && t == ToTicket(inventory[k])
      {
        var k :| 0 <= k < |front| && FirstOfItsId(front, k) && t == ToTicket(front[k]);
        KeptInFront(inventory, n, k);
      }
    }
  }

  /** An entry kept in a prefix is kept in the whole inventory. */
  lemma KeptInFront(inventory: seq<Record>, n: int, k: int)
    requires 0 <= k < n <= |inventory|
    requires FirstOfItsId(inventory[..n], k)
    ensures FirstOfItsId(inventory, k) && inventory[..n][k] == inventory[k]
  {
    FirstOfItsIdPrefix(inventory, n, k);
  }

  /** Every kept entry gives a ticket. */
  lemma {:induction false} KeptInDeduped(inventory: seq<Record>)
    ensures forall k :: 0 <= k < |inventory| && FirstOfItsId(inventory, k) ==>
      ToTicket(inventory[k]) in Deduped(inventory)
    decreases |inventory|
  {
    if inventory != [] {
      var n := |inventory| - 1;
      var front := inventory[..n];
      KeptInDeduped(front);
      forall k | 0 <= k < |inventory| && FirstOfItsId(inventory, k)
        ensures ToTicket(inventory[k]) in Deduped(inventory)
      {
        if k < n {
          FirstOfItsIdPrefix(inventory, n, k);
          assert front[k] == inventory[k];
        }
      }
    }
  }

  /** No two tickets share a truthy id. */
  predicate UniqueIds(tickets: seq<MappedTicket>) {
    forall i, j :: 0 <= i < j < |tickets| && Truthy(tickets[j].id) ==> tickets[i].id != tickets[j].id
  }

  /** The de-duplicated tickets have unique ids. */
  lemma {:induction false} DedupedUniqueIds(inventory: seq<Record>)
    ensures UniqueIds(Deduped(inventory))
    decreases |inventory|
  {
    if inventory != [] {
      var n := |inventory| - 1;
      var front := inventory[..n];
      var r := Deduped(inventory);
      var head := Deduped(front);
      DedupedUniqueIds(front);
      if !FirstOfItsId(inventory, n) {
        assert r == head;
      } else {
        DedupedFromKept(front);
        var t := ToTicket(inventory[n]);
        assert r == head + [t];
        forall i, j | 0 <= i < j < |r| && Truthy(r[j].id)
          ensures r[i].id != r[j].id
        {
          assert r[i] == head[i];
          if j == |head| {
            assert r[j] == t && t.id == IdOf(inventory[n]);
            assert head[i] in head;
            var k :| 0 <= k < |front| && FirstOfItsId(front, k) && head[i] == ToTicket(front[k]);
            assert front[k] == inventory[k];
            assert head[i].id == IdOf(inventory[k]);
            assert IdOf(inventory[k]) != IdOf(inventory[n]);
          } else {
            assert r[j] == head[j];
          }
        }
      }
    }
  }

  /** An inventory whose ids are already distinct loses nothing. */
  lemma {:induction false} DedupedDistinct(inventory: seq<Record>)
    requires forall i, j :: 0 <= i < j < |inventory| && Truthy(IdOf(inventory[j])) ==>
      IdOf(inventory[i]) != IdOf(inventory[j])
    ensures |Deduped(inventory)| == |inventory|
    ensures forall i :: 0 <= i < |inventory| ==> Deduped(inventory)[i] == ToTicket(inventory[i])
    decreases |inventory|
  {
    if inventory != [] {
      var n := |inventory| - 1;
      var front := inventory[..n];
      DedupedDistinct(front);
      assert FirstOfItsId(inventory, n);
    }
  }

  /** Two entries with the same id keep only the first. */
  lemma DedupedRepeatedIdExample()
    ensures Deduped([map["id" := Str("a"), "price" := Num(10.0)], map["id" := Str("a"), "price" := Num(20.0)]])
         == [MappedTicket(Str("a"), Undefined, Num(10.0), Undefined, Undefined, Undefined)]
  {
    var inv := [map["id" := Str("a"), "price" := Num(10.0)], map["id" := Str("a"), "price" := Num(20.0)]];
    assert inv[..1] == [inv[0]];
    assert [inv[0]][..0] == [];
    assert !FirstOfItsId(inv, 1);
  }

  // ---------------------------------------------------------------------------
  // parseImages, parseBool, parseNum

  predicate NonBlankPiece(p: string) {
    Trim(p) != ""
  }

  function StrValues(ss: seq<string>): (r: seq<JsValue>)
    ensures |r| == |ss| && forall i :: 0 <= i < |ss| ==> r[i] == Str(ss[i])
  {
    seq(|ss|, i requires 0 <= i < |ss| => Str(ss[i]))
  }

  /** `parseImages(input)` */
  function ParseImages(input: JsValue): seq<JsValue> {
    match input
    case Arr(elems) => elems
    case Str(s) => StrValues(Filter(Split(s, ','), NonBlankPiece))
    case _ => []
  }

  /** An array is taken as it is, anything but an array or a string gives no
      images, and a string gives exactly its comma-separated pieces that are
      not blank, each without a comma, at most one more than the commas. */
  lemma ParseImagesCases(input: JsValue)
    ensures input.Arr? ==> ParseImages(input) == input.elems
    ensures !input.Arr? && !input.Str? ==> ParseImages(input) == []
    ensures input.Str? ==>
      var r := ParseImages(input);
      && |r| <= multiset(input.s)[','] + 1
      && forall i :: 0 <= i < |r| ==> r[i].Str? && ',' !in r[i].s && !IsBlank(r[i].s) && r[i].s in Split(input.s, ',')
  {
    if input.Str? {
      var pieces := Split(input.s, ',');
      var kept := Filter(pieces, NonBlankPiece);
      assert ParseImages(input) == StrValues(kept);
      FilterMembers(pieces, NonBlankPiece);
      SplitCount(input.s, ',');
      forall i | 0 <= i < |kept|
        ensures ',' !in kept[i] && !IsBlank(kept[i]) && kept[i] in pieces
      {
        assert kept[i] in kept;
        TrimEmptyIffBlank(kept[i]);
      }
    }
  }

  /** Conversely, every comma-separated piece that is not blank is among the
      images. */
  lemma ParseImagesKeepsEveryPiece(s: string)
    ensures forall p :: p in Split(s, ',') && !IsBlank(p) ==> Str(p) in ParseImages(Str(s))
  {
    var kept := Filter(Split(s, ','), NonBlankPiece);
    FilterMembers(Split(s, ','), NonBlankPiece);
    forall p | p in Split(s, ',') && !IsBlank(p) ensures Str(p) in ParseImages(Str(s)) {
      TrimEmptyIffBlank(p);
      var i :| 0 <= i < |kept| && kept[i] == p;
      assert ParseImages(Str(s))[i] == Str(p);
    }
  }

  lemma StrValuesAppend(x: seq<string>, y: seq<string>)
    ensures StrValues(x + y) == StrValues(x) + StrValues(y)
  {
  }

  /** The images of a comma-joined text are those of its first part followed
      by those of its second, so the pieces keep their order and a blank
      piece between two commas is skipped wherever it stands. */
  lemma ParseImagesAppend(a: string, b: string)
    ensures ParseImages(Str(a + "," + b)) == ParseImages(Str(a)) + ParseImages(Str(b))
  {
    SplitAppend(a, ',', b);
    FilterAppend(Split(a, ','), Split(b, ','), NonBlankPiece);
    StrValuesAppend(Filter(Split(a, ','), NonBlankPiece), Filter(Split(b, ','), NonBlankPiece));
  }

  /** A piece without a comma gives itself when it is not blank and nothing
      when it is. */
  lemma ParseImagesOnePiece(p: string)
    requires ',' !in p
    ensures ParseImages(Str(p)) == if IsBlank(p) then [] else [Str(p)]
  {
    SplitNoSeparator(p, ',');
    FilterSingle(p, NonBlankPiece);
    TrimEmptyIffBlank(p);
  }

  /** A blank piece between two commas is dropped, an empty one included. */
  lemma ParseImagesSkipsBlankPiece(a: string, blank: string, b: string)
    requires ',' !in a && ',' !in blank && ',' !in b
    requires !IsBlank(a) && IsBlank(blank) && !IsBlank(b)
    ensures ParseImages(Str(a + "," + blank + "," + b)) == [Str(a), Str(b)]
  {
    var tail := blank + "," + b;
    assert ParseImages(Str(tail)) == [Str(b)] by {
      ParseImagesOnePiece(blank);
      ParseImagesOnePiece(b);
      ParseImagesAppend(blank, b);
    }
    assert ParseImages(Str(a + "," + tail)) == [Str(a), Str(b)] by {
      ParseImagesOnePiece(a);
      ParseImagesAppend(a, tail);
    }
    assert a + "," + tail == a + "," + blank + "," + b;
  }

  /** A trailing comma adds nothing. */
  lemma ParseImagesSkipsTrailingComma(a: string)
    ensures ParseImages(Str(a + ",")) == ParseImages(Str(a))
  {
    ParseImagesOnePiece("");
    ParseImagesAppend(a, "");
    assert a + "," + "" == a + ",";
  }

  /** Joining non-blank, comma-free URLs with commas and parsing the result
      gives the URLs back. */
  lemma ParseImagesJoinRoundTrip(urls: seq<string>)
    requires |urls| >= 1
    requires forall i :: 0 <= i < |urls| ==> ',' !in urls[i] && !IsBlank(urls[i])
    ensures ParseImages(Str(Join(urls, ','))) == StrValues(urls)
  {
    SplitJoin(urls, ',');
    forall i | 0 <= i < |urls| ensures NonBlankPiece(urls[i]) {
      TrimEmptyIffBlank(urls[i]);
    }
    FilterAllKept(urls, NonBlankPiece);
  }

  /** `parseBool(val)` of the host mapper. */
  function ParseBool(v: JsValue): bool {
    match v
    case Bool(b) => b
    case Str(s) => ToLower(s) == "true"
    case _ => Truthy(v)
  }

  /** `s` spells "true" in any mix of ASCII upper and lower case. */
  predicate IsTrueIgnoringCase(s: string) {
    |s| == 4 && LowerChar(s[0]) == 't' && LowerChar(s[1]) == 'r' && LowerChar(s[2]) == 'u' && LowerChar(s[3]) == 'e'
  }

  /** A boolean is kept, a string is true exactly when it spells "true" in
      any case, and anything else is its truthiness. */
  lemma ParseBoolCases(v: JsValue)
    ensures v.Bool? ==> ParseBool(v) == v.b
    ensures v.Str? ==> (ParseBool(v) <==> IsTrueIgnoringCase(v.s))
    ensures !v.Bool? && !v.Str? ==> ParseBool(v) == Truthy(v)
  {
    if v.Str? && IsTrueIgnoringCase(v.s) {
      assert ToLower(v.s) == "true";
    }
    if v.Str? && ParseBool(v) {
      var l := ToLower(v.s);
      assert l == "true";
      assert l[0] == 't' && l[1] == 'r' && l[2] == 'u' && l[3] == 'e';
    }
  }

  lemma ParseBoolExamples()
    ensures ParseBool(Str("TRUE")) && !ParseBool(Str("yes")) && !ParseBool(Str("false"))
    ensures ParseBool(Num(1.0)) && !ParseBool(Num(0.0)) && !ParseBool(Null)
  {
    ParseBoolCases(Str("TRUE"));
    ParseBoolCases(Str("yes"));
    ParseBoolCases(Str("false"));
  }

  /** `parseFloat(val)`, with `None` for NaN. `parse` reads the longest
      numeric prefix of a string; a number reads as itself; `undefined`,
      `null`, a boolean and NaN read as NaN. */
  function ParseFloat(v: JsValue, parse: string -> Option<real>): Option<real> {
    match v
    case Num(n) => Some(n)
    case Str(s) => parse(s)
    case _ => None
  }

  /** `parseNum(val, fallback)` of `getSystemSettings`. */
  function ParseNum(v: JsValue, fallback: real, parse: string -> Option<real>): real {
    match ParseFloat(v, parse)
    case Some(n) => n
    case None => fallback
  }

  /** A number is kept; a string is parsed, falling back when it does not
      start with a number; a missing value, `null`, a boolean and NaN give the
      fallback. */
  lemma ParseNumCases(v: JsValue, fallback: real, parse: string -> Option<real>)
    ensures v.Num? ==> ParseNum(v, fallback, parse) == v.n
    ensures v.Str? && parse(v.s).Some? ==> ParseNum(v, fallback, parse) == parse(v.s).value
    ensures v.Str? && parse(v.s).None? ==> ParseNum(v, fallback, parse) == fallback
    ensures !v.Num? && !v.Str? ==> ParseNum(v, fallback, parse) == fallback
  {
  }

  datatype SystemSettings = SystemSettings(
    platformName: JsValue,
    supportEmail: JsValue,
    platformFeePercent: JsValue,
    platformFeeFixed: JsValue,
    maintenanceMode: bool,
    disableRegistration: bool)

  /** The mapping of `getSystemSettings`: both fee settings always come out
      as numbers (never NaN), the percent falling back to 5.9 and the fixed
      fee to 0.35. */
  function GetSystemSettings(raw: Record, parse: string -> Option<real>): (s: SystemSettings)
    ensures s.platformFeePercent.Num? && s.platformFeeFixed.Num?
    ensures IsNullish(Get(raw, "platformFeePercent")) && IsNullish(Get(raw, "platform_fee_percent")) ==>
      s.platformFeePercent == Num(5.9)
    ensures IsNullish(Get(raw, "platformFeeFixed")) && IsNullish(Get(raw, "platform_fee_fixed")) ==>
      s.platformFeeFixed == Num(0.35)
    ensures Get(raw, "platformFeePercent").Num? ==> s.platformFeePercent == Get(raw, "platformFeePercent")
    ensures s.platformName != Str("") && s.platformName != Undefined
  {
    SystemSettings(
      Or(Get(raw, "platformName"), Or(Get(raw, "platform_name"), Str("Eventsta"))),
      Or(Get(raw, "supportEmail"), Or(Get(raw, "support_email"), Str(""))),
      Num(ParseNum(Coalesce(Get(raw, "platformFeePercent"), Get(raw, "platform_fee_percent")), 5.9, parse)),
      Num(ParseNum(Coalesce(Get(raw, "platformFeeFixed"), Get(raw, "platform_fee_fixed")), 0.35, parse)),
      Truthy(Coalesce(Get(raw, "maintenanceMode"), Get(raw, "maintenance_mode"))),
      Truthy(Coalesce(Get(raw, "disableRegistration"), Get(raw, "disable_registration"))))
  }

  // ---------------------------------------------------------------------------
  // Sign-in credentials

  datatype Credentials = Credentials(email: string, password: string)

  /** `credentials.split('|')`, then the first piece and the rest re-joined:
      the e-mail is the text before the first `|` and the password all of the
      text after it. */
  function SplitCredentials(c: string): (r: Credentials)
    ensures '|' !in r.email
    ensures '|' in c ==> c == r.email + "|" + r.password
    ensures '|' !in c ==> r.email == c && r.password == ""
  {
    var parts := Split(c, '|');
    JoinSplit(c, '|');
    SplitCount(c, '|');
    if |parts| == 1 then
      assert '|' !in c by {
        assert multiset(c)['|'] == 0;
      }
      Credentials(parts[0], "")
    else
      assert '|' in c by {
        assert multiset(c)['|'] > 0;
      }
      Credentials(parts[0], Join(parts[1..], '|'))
  }

  datatype UserInfo = UserInfo(name: string, email: string)

  /** What `signIn` does before calling the backend: the demo and admin
      providers log in locally with a mock user; the others post a body. */
  datatype SignInRequest =
    | MockSession(userId: string, name: string, isSystemAdmin: bool)
    | LoginPost(body: Record)

  function SignIn(provider: string, credentials: Option<string>, userInfo: Option<UserInfo>): SignInRequest {
    if provider == "demo" || provider == "admin" then
      var admin := provider == "admin";
      MockSession(if admin then "admin_id" else "demo_id", if admin then "System Admin" else "Demo User", admin)
    else if provider == "email" && credentials.Some? && credentials.value != "" then
      var c := SplitCredentials(credentials.value);
      LoginPost(map["email" := Str(c.email), "password" := Str(c.password)])
    else
      var base := map["password" := Str("placeholder-provider-login"),
                      "provider_token" := if credentials.Some? then Str(credentials.value) else Undefined];
      var withName := if userInfo.Some? && userInfo.value.name != "" then base["name" := Str(userInfo.value.name)] else base;
      LoginPost(if userInfo.Some? && userInfo.value.email != "" then withName["email" := Str(userInfo.value.email)] else withName)
  }

  /** `loginWithPassword(email, password)` */
  function LoginWithPassword(email: string, password: string): SignInRequest {
    SignIn("email", Some(email + "|" + password), None)
  }

  /** Packing and unpacking the credentials gives back the e-mail and the
      password (which may itself contain `|`), whenever the e-mail has no `|`. */
  lemma LoginWithPasswordRoundTrip(email: string, password: string)
    requires '|' !in email
    ensures LoginWithPassword(email, password) == LoginPost(map["email" := Str(email), "password" := Str(password)])
  {
    SplitAtFirstSeparator(email, '|', password);
    JoinSplit(password, '|');
    var parts := Split(email + "|" + password, '|');
    assert parts == [email] + Split(password, '|');
    assert parts[1..] == Split(password, '|');
  }

  /** A provider login carries no e-mail credentials, only the token and
      whatever name and e-mail the provider supplied. */
  lemma ProviderLoginBody(provider: string, token: string, info: UserInfo)
    requires provider != "demo" && provider != "admin" && provider != "email"
    requires info.name != "" && info.email != ""
    ensures SignIn(provider, Some(token), Some(info)) == LoginPost(map[
      "password" := Str("placeholder-provider-login"), "provider_token" := Str(token),
      "name" := Str(info.name), "email" := Str(info.email)])
  {
  }

  // ---------------------------------------------------------------------------
  // Upload URL fix

  const ApiHost := "https://api.eventsta.com/"
  const ApiHostWithPort := "https://api.eventsta.com:8181/"

  /** `uploadFile`'s rewrite of the returned URL. */
  function FixUploadUrl(url: string): string {
    if StartsWith(url, ApiHost) && !Contains(url, ":8181") then ReplaceFirst(url, ApiHost, ApiHostWithPort)
    else url
  }

  /** The port is inserted after the host exactly when the URL starts with
      the API host and has no `:8181`; other URLs are left alone. */
  lemma FixUploadUrlRule(url: string)
    ensures StartsWith(url, ApiHost) && !Contains(url, ":8181") ==>
      FixUploadUrl(url) == ApiHostWithPort + url[|ApiHost|..]
    ensures !(StartsWith(url, ApiHost) && !Contains(url, ":8181")) ==> FixUploadUrl(url) == url
  {
  }

  /** Fixing a fixed URL changes nothing. */
  lemma FixUploadUrlIdempotent(url: string)
    ensures FixUploadUrl(FixUploadUrl(url)) == FixUploadUrl(url)
  {
    FixUploadUrlRule(url);
    var r := FixUploadUrl(url);
    if r != url {
      assert r[24..29] == ":8181";
      IndexOfFinds(r, ":8181", 24);
    }
  }

  // ---------------------------------------------------------------------------
  // updateEvent payload

  /** The keys `updateEvent` renames away, and the keys it renames them to. */
  const RenamedKeys := {"date", "endDate", "start_date", "end_date", "imageUrls", "commission",
                        "defaultPromoDiscount", "hostId", "tickets"}
  const BackendKeys := {"start_time", "end_time", "images", "commission_rate", "promo_discount_rate",
                        "host_id", "inventory"}

  /** The backend inventory entry sent for one ticket. */
  function InventoryEntry(t: JsValue): JsValue {
    Obj(map["id" := Prop(t, "id"), "type" := Prop(t, "type"), "price" := Prop(t, "price"),
            "quantity_total" := Prop(t, "quantity"), "min_donation" := Prop(t, "minimumDonation"),
            "description" := Prop(t, "description")])
  }

  /** `updates.tickets.map(...)` can only be evaluated on an array of objects. */
  predicate TicketsMappable(updates: Record) {
    var tickets := Get(updates, "tickets");
    Truthy(tickets) ==> tickets.Arr? && forall i :: 0 <= i < |tickets.elems| ==> !IsNullish(tickets.elems[i])
  }

  /** `if (cond) { payload.to = value; delete payload.from; }` */
  function MoveIf(m: Record, cond: bool, from: string, to: string, value: JsValue): (r: Record)
    requires from != to
    ensures cond ==> from !in r && to in r && r[to] == value
    ensures !cond ==> r == m
    ensures forall k {:trigger k in r} :: k != from && k != to ==> (k in r <==> k in m)
    ensures forall k {:trigger r[k]} :: k != from && k != to && k in r ==> r[k] == m[k]
  {
    if cond then m[to := value] - {from} else m
  }

  /** `if ('key' in payload) delete payload.key` */
  function Delete(m: Record, key: string): (r: Record)
    ensures key !in r
    ensures forall k {:trigger k in r} :: k != key ==> (k in r <==> k in m)
    ensures forall k {:trigger r[k]} :: k != key && k in r ==> r[k] == m[k]
  {
    if key in m then m - {key} else m
  }

  function InventoryOf(tickets: JsValue): seq<JsValue> {
    if tickets.Arr? then seq(|tickets.elems|, i requires 0 <= i < |tickets.elems| => InventoryEntry(tickets.elems[i]))
    else []
  }

  /** The date keys of the payload: `date` and `endDate` become `start_time`
      and `end_time`, and the legacy `start_date` and `end_date` are dropped. */
  function RenameDates(updates: Record): Record {
    var p := MoveIf(updates, Truthy(Get(updates, "date")), "date", "start_time", Get(updates, "date"));
    var p := MoveIf(p, Truthy(Get(updates, "endDate")), "endDate", "end_time", Get(updates, "endDate"));
    Delete(Delete(p, "start_date"), "end_date")
  }

  /** The payload `updateEvent` sends. */
  function RenamedPayload(updates: Record): Record {
    var p := RenameDates(updates);
    var p := MoveIf(p, Truthy(Get(updates, "imageUrls")), "imageUrls", "images", Get(updates, "imageUrls"));
    var p := MoveIf(p, Get(updates, "commission") != Undefined, "commission", "commission_rate", Get(updates, "commission"));
    var p := MoveIf(p, Get(updates, "defaultPromoDiscount") != Undefined, "defaultPromoDiscount", "promo_discount_rate",
                    Get(updates, "defaultPromoDiscount"));
    var p := MoveIf(p, Truthy(Get(updates, "hostId")), "hostId", "host_id", Get(updates, "hostId"));
    MoveIf(p, Truthy(Get(updates, "tickets")), "tickets", "inventory", Arr(InventoryOf(Get(updates, "tickets"))))
  }

  /** The payload never carries the legacy `start_date` or `end_date`. */
  lemma RenamedPayloadNoLegacyDates(updates: Record)
    ensures "start_date" !in RenamedPayload(updates) && "end_date" !in RenamedPayload(updates)
  {
  }

  /** A truthy `date` is sent as `start_time` instead. */
  lemma RenamedPayloadStartTime(updates: Record)
    requires Truthy(Get(updates, "date"))
    ensures var payload := RenamedPayload(updates);
      "date" !in payload && "start_time" in payload && payload["start_time"] == updates["date"]
  {
  }

  /** A truthy `endDate` is sent as `end_time` instead. */
  lemma RenamedPayloadEndTime(updates: Record)
    requires Truthy(Get(updates, "endDate"))
    ensures var payload := RenamedPayload(updates);
      "endDate" !in payload && "end_time" in payload && payload["end_time"] == updates["endDate"]
  {
  }

  /** Truthy `imageUrls` are sent as `images` instead. */
  lemma RenamedPayloadImages(updates: Record)
    requires Truthy(Get(updates, "imageUrls"))
    ensures var payload := RenamedPayload(updates);
      "imageUrls" !in payload && "images" in payload && payload["images"] == updates["imageUrls"]
  {
  }

  /** A `commission` that is present, even 0, is sent as `commission_rate`. */
  lemma RenamedPayloadCommission(updates: Record)
    requires Get(updates, "commission") != Undefined
    ensures var payload := RenamedPayload(updates);
      "commission" !in payload && "commission_rate" in payload && payload["commission_rate"] == updates["commission"]
  {
  }

  /** A `defaultPromoDiscount` that is present, even 0, is sent as
      `promo_discount_rate`. */
  lemma RenamedPayloadPromoDiscount(updates: Record)
    requires Get(updates, "defaultPromoDiscount") != Undefined
    ensures var payload := RenamedPayload(updates);
      "defaultPromoDiscount" !in payload && "promo_discount_rate" in payload &&
      payload["promo_discount_rate"] == updates["defaultPromoDiscount"]
  {
  }

  /** A truthy `hostId` is sent as `host_id`. */
  lemma RenamedPayloadHost(updates: Record)
    requires Truthy(Get(updates, "hostId"))
    ensures var payload := RenamedPayload(updates);
      "hostId" !in payload && "host_id" in payload && payload["host_id"] == updates["hostId"]
  {
  }

  /** Truthy `tickets` are sent as `inventory`, one backend entry per ticket,
      in order. */
  lemma RenamedPayloadInventory(updates: Record)
    requires TicketsMappable(updates) && Truthy(Get(updates, "tickets"))
    ensures var payload := RenamedPayload(updates);
      var tickets := updates["tickets"].elems;
      && "tickets" !in payload && "inventory" in payload && payload["inventory"].Arr?
      && |payload["inventory"].elems| == |tickets|
      && forall i :: 0 <= i < |tickets| ==> payload["inventory"].elems[i] == InventoryEntry(tickets[i])
  {
  }

  lemma KeepsUnmovedDate(updates: Record)
    requires "date" in updates && !Truthy(updates["date"])
    ensures "date" in RenamedPayload(updates) && RenamedPayload(updates)["date"] == updates["date"]
  {
  }

  lemma KeepsUnmovedEndDate(updates: Record)
    requires "endDate" in updates && !Truthy(updates["endDate"])
    ensures "endDate" in RenamedPayload(updates) && RenamedPayload(updates)["endDate"] == updates["endDate"]
  {
  }

  lemma KeepsUnmovedImageUrls(updates: Record)
    requires "imageUrls" in updates && !Truthy(updates["imageUrls"])
    ensures "imageUrls" in RenamedPayload(updates) && RenamedPayload(updates)["imageUrls"] == updates["imageUrls"]
  {
  }

  lemma KeepsUnmovedHostId(updates: Record)
    requires "hostId" in updates && !Truthy(updates["hostId"])
    ensures "hostId" in RenamedPayload(updates) && RenamedPayload(updates)["hostId"] == updates["hostId"]
  {
  }

  lemma KeepsUnmovedTickets(updates: Record)
    requires "tickets" in updates && !Truthy(updates["tickets"])
    ensures "tickets" in RenamedPayload(updates) && RenamedPayload(updates)["tickets"] == updates["tickets"]
  {
  }

  lemma KeepsUnmovedCommission(updates: Record)
    requires "commission" in updates && updates["commission"] == Undefined
    ensures "commission" in RenamedPayload(updates) && RenamedPayload(updates)["commission"] == updates["commission"]
  {
  }

  lemma KeepsUnmovedPromoDiscount(updates: Record)
    requires "defaultPromoDiscount" in updates && updates["defaultPromoDiscount"] == Undefined
    ensures "defaultPromoDiscount" in RenamedPayload(updates) && RenamedPayload(updates)["defaultPromoDiscount"] == updates["defaultPromoDiscount"]
  {
  }

  /** A renamed key whose condition fails stays under its own name with its
      own value: a falsy `date`, `endDate`, `imageUrls`, `hostId` or
      `tickets`, and a `commission` or `defaultPromoDiscount` holding
      `undefined`. */
  lemma RenamedPayloadKeepsUnmovedKeys(updates: Record)
    ensures var payload := RenamedPayload(updates);
      && ("date" in updates && !Truthy(updates["date"]) ==> "date" in payload && payload["date"] == updates["date"])
      && ("endDate" in updates && !Truthy(updates["endDate"]) ==>
            "endDate" in payload && payload["endDate"] == updates["endDate"])
      && ("imageUrls" in updates && !Truthy(updates["imageUrls"]) ==>
            "imageUrls" in payload && payload["imageUrls"] == updates["imageUrls"])
      && ("hostId" in updates && !Truthy(updates["hostId"]) ==>
            "hostId" in payload && payload["hostId"] == updates["hostId"])
      && ("tickets" in updates && !Truthy(updates["tickets"]) ==>
            "tickets" in payload && payload["tickets"] == updates["tickets"])
      && ("commission" in updates && updates["commission"] == Undefined ==>
            "commission" in payload && payload["commission"] == Undefined)
      && ("defaultPromoDiscount" in updates && updates["defaultPromoDiscount"] == Undefined ==>
            "defaultPromoDiscount" in payload && payload["defaultPromoDiscount"] == Undefined)
  {
    if "date" in updates && !Truthy(updates["date"]) {
      KeepsUnmovedDate(updates);
    }
    if "endDate" in updates && !Truthy(updates["endDate"]) {
      KeepsUnmovedEndDate(updates);
    }
    if "imageUrls" in updates && !Truthy(updates["imageUrls"]) {
      KeepsUnmovedImageUrls(updates);
    }
    if "hostId" in updates && !Truthy(updates["hostId"]) {
      KeepsUnmovedHostId(updates);
    }
    if "tickets" in updates && !Truthy(updates["tickets"]) {
      KeepsUnmovedTickets(updates);
    }
    if "commission" in updates && updates["commission"] == Undefined {
      KeepsUnmovedCommission(updates);
    }
    if "defaultPromoDiscount" in updates && updates["defaultPromoDiscount"] == Undefined {
      KeepsUnmovedPromoDiscount(updates);
    }
  }

  /** Every key that is neither renamed nor a backend name is sent unchanged,
      and the payload has no key besides those of the update and the backend
      names. */
  lemma RenamedPayloadKeepsOtherKeys(updates: Record)
    ensures var payload := RenamedPayload(updates);
      && (forall k :: k in updates && k !in RenamedKeys && k !in BackendKeys ==> k in payload && payload[k] == updates[k])
      && (forall k :: k in payload ==> k in updates || k in BackendKeys)
  {
  }

  /** `updateEvent`'s construction of the PATCH payload: a copy of the
      updates, renamed key by key. */
  method UpdateEventPayload(updates: Record) returns (payload: Record)
    requires TicketsMappable(updates)
    ensures payload == RenamedPayload(updates)
    ensures "start_date" !in payload && "end_date" !in payload
    ensures forall k :: k in updates && k !in RenamedKeys && k !in BackendKeys ==> k in payload && payload[k] == updates[k]
  {
    payload := updates;
    payload := MoveIf(payload, Truthy(Get(updates, "date")), "date", "start_time", Get(updates, "date"));
    payload := MoveIf(payload, Truthy(Get(updates, "endDate")), "endDate", "end_time", Get(updates, "endDate"));
    payload := Delete(payload, "start_date");
    payload := Delete(payload, "end_date");
    payload := MoveIf(payload, Truthy(Get(updates, "imageUrls")), "imageUrls", "images", Get(updates, "imageUrls"));
    payload := MoveIf(payload, Get(updates, "commission") != Undefined, "commission", "commission_rate",
                      Get(updates, "commission"));
    payload := MoveIf(payload, Get(updates, "defaultPromoDiscount") != Undefined, "defaultPromoDiscount",
                      "promo_discount_rate", Get(updates, "defaultPromoDiscount"));
    payload := MoveIf(payload, Truthy(Get(updates, "hostId")), "hostId", "host_id", Get(updates, "hostId"));
    payload := MoveIf(payload, Truthy(Get(updates, "tickets")), "tickets", "inventory", Arr(InventoryOf(Get(updates, "tickets"))));
    RenamedPayloadNoLegacyDates(updates);
    RenamedPayloadKeepsOtherKeys(updates);
  }

  // ---------------------------------------------------------------------------
  // Promotion records

  /** The fields of a raw promotion that the mapper uses as text. */
  const TextKeys := {"event_id", "eventId", "code", "promo_code", "link", "promoLink", "event_title", "eventName"}

  /** The backend sends those fields as strings, or leaves them out. */
  predicate TextFields(raw: Record) {
    forall k :: k in raw && k in TextKeys ==> raw[k].Str? || IsNullish(raw[k])
  }

  /** A text field, with `""` for a missing one (both are falsy). */
  function Text(raw: Record, key: string): string {
    if key in raw && raw[key].Str? then raw[key].s else ""
  }

  function FirstNonEmpty(a: string, b: string): string {
    if a != "" then a else b
  }

  /** The regular expression `[?&]promo=([^&]+)` matches at the start. */
  predicate PromoParamAtStart(s: string) {
    |s| > 7 && (s[0] == '?' || s[0] == '&') && s[1..7] == "promo=" && s[7] != '&'
  }

  /** The longest prefix without `&`. */
  function TakeUntilAmpersand(s: string): (r: string)
    ensures '&' !in r && |r| <= |s| && r == s[..|r|]
    ensures |r| < |s| ==> s[|r|] == '&'
    ensures '&' !in s ==> r == s
  {
    if s == [] || s[0] == '&' then [] else [s[0]] + TakeUntilAmpersand(s[1..])
  }

  /** `url.match(/[?&]promo=([^&]+)/)?.[1]`: the leftmost match's group. */
  function MatchPromo(s: string): (r: Option<string>)
    ensures r.Some? ==> r.value != "" && '&' !in r.value
  {
    if s == [] then None
    else if PromoParamAtStart(s) then Some(TakeUntilAmpersand(s[7..]))
    else MatchPromo(s[1..])
  }

  lemma {:induction false} TakeUntilAmpersandStops(code: string, rest: string)
    requires '&' !in code
    requires rest == [] || rest[0] == '&'
    ensures TakeUntilAmpersand(code + rest) == code
    decreases |code|
  {
    if code == [] {
      assert code + rest == rest;
    } else {
      assert (code + rest)[1..] == code[1..] + rest;
      TakeUntilAmpersandStops(code[1..], rest);
    }
  }

  /** After a prefix free of `?` and `&`, a `?promo=` or `&promo=` parameter
      yields its value, up to the next `&`. */
  lemma {:induction false} MatchPromoAfter(prefix: string, delimiter: char, code: string, rest: string)
    requires '?' !in prefix && '&' !in prefix
    requires delimiter == '?' || delimiter == '&'
    requires code != "" && '&' !in code
    requires rest == [] || rest[0] == '&'
    ensures MatchPromo(prefix + [delimiter] + "promo=" + code + rest) == Some(code)
    decreases |prefix|
  {
    var s := prefix + [delimiter] + "promo=" + code + rest;
    if prefix == [] {
      assert s == [delimiter] + "promo=" + (code + rest);
      assert s[7..] == code + rest;
      assert s[7] == code[0];
      TakeUntilAmpersandStops(code, rest);
    } else {
      assert s[1..] == prefix[1..] + [delimiter] + "promo=" + code + rest;
      MatchPromoAfter(prefix[1..], delimiter, code, rest);
    }
  }

  /** The code of a raw promotion: `code`, else `promo_code`, else the one
      in its link; `""` when there is none. */
  function PromoCode(raw: Record): string {
    var direct := FirstNonEmpty(Text(raw, "code"), Text(raw, "promo_code"));
    if direct != "" then direct
    else
      var url := FirstNonEmpty(Text(raw, "link"), Text(raw, "promoLink"));
      if url == "" then ""
      else match MatchPromo(url)
        case Some(c) => c
        case None => ""
  }

  /** The event a promotion belongs to, as fetched; `commission` 0 when the
      event has none. */
  datatype EventInfo = EventInfo(title: string, commission: real)

  /** `${origin}/#/event/${createEventSlug(title, eventId)}?promo=${code}` */
  function PromoLink(origin: string, title: string, eventId: string, code: string): string {
    origin + "/#/event/" + Url.CreateEventSlug(title, eventId) + "?promo=" + code
  }

  /** `sales_volume * (commission / 100)`, with JavaScript's numeric coercion
      of the volume; `toNumber` converts a string as `Number(s)` does. */
  function VolumeShare(volume: JsValue, rate: real, toNumber: string -> Option<real>): JsValue {
    match volume
    case Num(n) => Num(n * rate)
    case Str(s) => (match toNumber(s) case Some(n) => Num(n * rate) case None => NaN)
    case Bool(b) => Num(if b then rate else 0.0)
    case _ => NaN
  }

  /** The `earned` fallback chain. */
  function Earned(raw: Record, event: Option<EventInfo>, toNumber: string -> Option<real>): (r: JsValue)
    ensures IsNumber(r)
  {
    var earnedAmount := Get(raw, "earned_amount");
    var earned := Get(raw, "earned");
    var volume := Get(raw, "sales_volume");
    if IsNumber(earnedAmount) then earnedAmount
    else if IsNumber(earned) then earned
    else if Truthy(volume) && event.Some? && event.value.commission != 0.0 then
      VolumeShare(volume, event.value.commission / 100.0, toNumber)
    else Num(0.0)
  }

  /** `earned_amount` wins whenever it is a number, then `earned`; the share
      of the sales volume, whatever the volume's type, is used only when
      neither is a number and both the volume and the commission are set;
      otherwise 0. */
  lemma EarnedPrecedence(raw: Record, event: Option<EventInfo>, toNumber: string -> Option<real>)
    ensures IsNumber(Get(raw, "earned_amount")) ==> Earned(raw, event, toNumber) == Get(raw, "earned_amount")
    ensures !IsNumber(Get(raw, "earned_amount")) && IsNumber(Get(raw, "earned")) ==>
      Earned(raw, event, toNumber) == Get(raw, "earned")
    ensures !IsNumber(Get(raw, "earned_amount")) && !IsNumber(Get(raw, "earned")) && Truthy(Get(raw, "sales_volume")) &&
            event.Some? && event.value.commission != 0.0 ==>
      Earned(raw, event, toNumber) == VolumeShare(Get(raw, "sales_volume"), event.value.commission / 100.0, toNumber)
    ensures !IsNumber(Get(raw, "earned_amount")) && !IsNumber(Get(raw, "earned")) && Get(raw, "sales_volume").Num? &&
            event.Some? && event.value.commission != 0.0 && Get(raw, "sales_volume").n != 0.0 ==>
      Earned(raw, event, toNumber) == Num(Get(raw, "sales_volume").n * event.value.commission / 100.0)
    ensures !IsNumber(Get(raw, "earned_amount")) && !IsNumber(Get(raw, "earned")) &&
            (!Truthy(Get(raw, "sales_volume")) || event.None? || event.value.commission == 0.0) ==>
      Earned(raw, event, toNumber) == Num(0.0)
  {
  }

  lemma EarnedExample(toNumber: string -> Option<real>)
    ensures Earned(map["sales_volume" := Num(500.0)], Some(EventInfo("Gala", 10.0)), toNumber) == Num(50.0)
    ensures Earned(map["earned_amount" := Num(0.0), "earned" := Num(7.0)], None, toNumber) == Num(0.0)
  {
  }

  /** A volume sent as a string is coerced by the multiplication, and
      `true` counts as 1. */
  lemma EarnedCoercedVolumeExample(toNumber: string -> Option<real>)
    requires toNumber("500") == Some(500.0)
    ensures Earned(map["sales_volume" := Str("500")], Some(EventInfo("Gala", 10.0)), toNumber) == Num(50.0)
    ensures Earned(map["sales_volume" := Bool(true)], Some(EventInfo("Gala", 10.0)), toNumber) == Num(0.1)
  {
  }

  datatype MappedPromo = MappedPromo(
    eventId: string,
    eventName: string,
    promoLink: string,
    clicks: JsValue,
    sales: JsValue,
    commissionPct: JsValue,
    earned: JsValue,
    status: JsValue)

  /** The title used for the slug: the event's, else the record's, else
      "event". */
  function TitleForSlug(raw: Record, event: Option<EventInfo>): string {
    var fromEvent := if event.Some? then event.value.title else "";
    FirstNonEmpty(fromEvent, FirstNonEmpty(Text(raw, "event_title"), FirstNonEmpty(Text(raw, "eventName"), "event")))
  }

  function PromoEventId(raw: Record): string {
    FirstNonEmpty(Text(raw, "event_id"), Text(raw, "eventId"))
  }

  /** The link kept for a promotion: the canonical frontend link when there
      are a code, an event id and a window, else the stored one. */
  function FinalLink(raw: Record, event: Option<EventInfo>, origin: Option<string>): string {
    var code := PromoCode(raw);
    if code != "" && PromoEventId(raw) != "" && origin.Some? then
      PromoLink(origin.value, TitleForSlug(raw, event), PromoEventId(raw), code)
    else FirstNonEmpty(Text(raw, "link"), Text(raw, "promoLink"))
  }

  /** One element of `rawPromos.map(...)`. `origin` is `window.location.origin`,
      `None` where there is no window. */
  function MapPromo(raw: Record, event: Option<EventInfo>, origin: Option<string>, toNumber: string -> Option<real>): MappedPromo
    requires TextFields(raw)
  {
    var eventTitle := if event.Some? then event.value.title else "";
    var commission := if event.Some? then Num(event.value.commission) else Undefined;
    MappedPromo(
      PromoEventId(raw),
      FirstNonEmpty(Text(raw, "event_title"), FirstNonEmpty(Text(raw, "eventName"), FirstNonEmpty(eventTitle, "Unknown Event"))),
      FinalLink(raw, event, origin),
      Or(Get(raw, "clicks"), Num(0.0)),
      Or(Get(raw, "sales_count"), Or(Get(raw, "sales"), Num(0.0))),
      Or(Get(raw, "commission_rate"), Or(commission, Num(0.0))),
      Earned(raw, event, toNumber),
      Or(Get(raw, "status"), Str("active")))
  }

  /** No character of a slug made for an id free of `?` and `&` is `?` or `&`. */
  lemma SlugHasNoQueryDelimiters(title: string, id: string)
    requires '?' !in id && '&' !in id
    ensures '?' !in Url.CreateEventSlug(title, id) && '&' !in Url.CreateEventSlug(title, id)
  {
    var r := Url.CreateEventSlug(title, id);
    Url.CreateEventSlugAlphabet(title, id);
    forall i | 0 <= i < |r| ensures r[i] != '?' && r[i] != '&' {
      assert Url.IsSlugChar(r[i]) || r[i] == '-' || r[i] in id;
    }
  }

  /** Reading the code back from a frontend promo link gives the code, as
      long as neither the origin nor the event id holds `?` or `&`. */
  lemma PromoLinkCarriesCode(origin: string, title: string, id: string, code: string)
    requires '?' !in origin && '&' !in origin && '?' !in id && '&' !in id
    requires code != "" && '&' !in code
    ensures MatchPromo(PromoLink(origin, title, id, code)) == Some(code)
  {
    var prefix := origin + "/#/event/" + Url.CreateEventSlug(title, id);
    assert '?' !in prefix && '&' !in prefix by {
      SlugHasNoQueryDelimiters(title, id);
    }
    assert PromoLink(origin, title, id, code) == prefix + ['?'] + "promo=" + code + "";
    MatchPromoAfter(prefix, '?', code, "");
  }

  /** The link the mapper builds carries the promotion's own code: reading it
      back with the same expression gives that code. */
  lemma MappedLinkCarriesCode(raw: Record, event: Option<EventInfo>, origin: string)
    requires TextFields(raw)
    requires '?' !in origin && '&' !in origin
    requires PromoEventId(raw) != "" && '?' !in PromoEventId(raw) && '&' !in PromoEventId(raw)
    requires PromoCode(raw) != "" && '&' !in PromoCode(raw)
    ensures MatchPromo(FinalLink(raw, event, Some(origin))) == Some(PromoCode(raw))
  {
    PromoLinkCarriesCode(origin, TitleForSlug(raw, event), PromoEventId(raw), PromoCode(raw));
  }

  /** Storing the built link as a record's only field and mapping it again
      recovers the same code. */
  lemma PromoCodeOfStoredLink(link: string, code: string)
    requires MatchPromo(link) == Some(code)
    ensures PromoCode(map["link" := Str(link)]) == code
  {
  }

  /** Without a code, the stored link is kept as it is. */
  lemma StoredLinkKeptWithoutCode(raw: Record, event: Option<EventInfo>, origin: Option<string>, toNumber: string -> Option<real>)
    requires TextFields(raw)
    requires PromoCode(raw) == ""
    ensures MapPromo(raw, event, origin, toNumber).promoLink == FirstNonEmpty(Text(raw, "link"), Text(raw, "promoLink"))
    ensures MapPromo(raw, event, origin, toNumber).eventId == PromoEventId(raw)
  {
  }

  /** A code given directly wins over the one in the link, and a record with
      no status is active. */
  lemma PromoCodeAndStatus(raw: Record, event: Option<EventInfo>, origin: Option<string>, toNumber: string -> Option<real>)
    requires TextFields(raw)
    ensures Text(raw, "code") != "" ==> PromoCode(raw) == Text(raw, "code")
    ensures Text(raw, "code") == "" && Text(raw, "promo_code") != "" ==> PromoCode(raw) == Text(raw, "promo_code")
    ensures !Truthy(Get(raw, "status")) ==> MapPromo(raw, event, origin, toNumber).status == Str("active")
  {
  }
}

/**
 Any number of honest browsers and pages, one server, and a network that may
 lose, delay or repeat anything: requests sent stay deliverable for ever, and a
 reply once produced may arrive at any later time or never.

 The session cookie of a page names the account the page shows, so a request
 acts for that account or for nobody. Status replies alone may be about any
 account, because the code checks those.
 */
module World {
  import opened Base
  import opened Crypto
  import opened Accounts
  import opened Routes
  import opened Ceremonies
  import opened EncryptionState
  import opened Keystore
  import opened Tab

  datatype Request =
    | EnableReq(page: nat, task: nat, user: Account, dek: Dek, passkey: Option<PasskeyWrap>, keyBlob: Blob)
    | AddReq(user: Account, cred: CredId, blob: Blob)
    | ReplaceReq(user: Account, blob: Blob)
    | SaveReq(user: Account, day: Day, body: Body, size: nat)

  datatype Heard =
    | StatusHeard(page: nat, task: nat, account: Account, enabled: bool)
    | WrapsHeard(user: Account, wraps: seq<WrapDto>)
    | RowHeard(user: Account, day: Day, body: Option<Body>)
    | RangeHeard(user: Account, bodies: seq<Body>)
    | EnableDone(page: nat, task: nat)

  /** A page load: its state machine, who was signed in when it loaded, and the browser it is in. */
  datatype Page = Page(tab: Tab, owner: Option<Account>, browser: nat)

  /** `deks` is history: which data key an account was first enabled with. */
  datatype World = World(db: Db, deks: map<Account, Dek>, sent: set<Request>, heard: set<Heard>,
                         pages: map<nat, Page>, nextPage: nat, stores: map<nat, Store>)

  const Start := World(EmptyDb, map[], {}, {}, map[], 0, map[])

  /** Why an event may happen on a page: of itself, or because of what the server has said. */
  datatype Cause =
    | Itself
    | Told
    | Opening(wraps: seq<WrapDto>, source: KeySource, answer: Assertion)
    | Enabling(request: Request)

  /** How a client came by a request it sends. */
  datatype Plan =
    | Prepare(cred: Option<CredId>, minted: Bytes)
    | Add(wraps: seq<WrapDto>, source: KeySource, answer: Assertion, second: Assertion)
    | Reissue(wraps: seq<WrapDto>, source: KeySource, answer: Assertion, minted: Bytes)
    | Save(page: nat, text: string)

  datatype Act =
    | OpenPage(owner: Option<Account>, browser: nat, today: Day)
    | ClosePage(page: nat)
    | OnPage(page: nat, event: Event, cause: Cause)
    | Serve(heard: Heard)
    | Send(request: Request, plan: Plan)
    | Execute(request: Request)
    | LateInsert(request: Request)
    | Manage(user: Account, call: Call)

  function StoreOf(w: World, browser: nat): Store {
    if browser in w.stores then w.stores[browser] else EmptyStore
  }

  /** The page as it is now, with its browser's keystore in view. */
  function Present(w: World, i: nat): Tab
    requires i in w.pages
  {
    w.pages[i].tab.(store := StoreOf(w, w.pages[i].browser))
  }

  function Acted(w: World, i: nat, e: Event): World
    requires i in w.pages
  {
    var t := Step(Present(w, i), e);
    w.(pages := w.pages[i := w.pages[i].(tab := t)], stores := w.stores[w.pages[i].browser := t.store])
  }

  function CallOf(r: Request): Call {
    match r
    case EnableReq(_, _, _, _, passkey, keyBlob) => Enable(passkey, keyBlob)
    case AddReq(_, cred, blob) => AddPasskeyWrap(cred, blob)
    case ReplaceReq(_, blob) => ReplaceKeyWrap(blob)
    case SaveReq(_, day, body, size) => SaveEntry(day, body, size)
  }

  function Executed(w: World, r: Request): World {
    var (db, reply) := Apply(w.db, r.user, CallOf(r));
    if r.EnableReq? && reply.Done? then
      w.(db := db, deks := w.deks[r.user := r.dek], heard := w.heard + {EnableDone(r.page, r.task)})
    else w.(db := db)
  }

  /** The data key a page's ceremony gets out of wraps the server sent for `user`. */
  predicate KeyObtained(w: World, user: Account, wraps: seq<WrapDto>, source: KeySource, answer: Assertion) {
    WrapsHeard(user, wraps) in w.heard && UnlockWith(wraps, source, answer).Ok?
  }

  predicate HasTask(w: World, page: nat, task: nat) {
    page in w.pages && task in w.pages[page].tab.tasks
  }

  /** Another page's doing, which no page can bring about by itself. */
  predicate FromElsewhere(e: Event) {
    e.Storage? && e.storage.Foreign?
  }

  /** Events whose data is the browser's own, or a failed call. */
  predicate NeedsNoMessage(e: Event) {
    match e
    case Probe(Status(_, answer)) => answer.None?
    case Unlock(a) => a.Fails? || a.Written?
    case Enter(a) => !a.SignInOpens?
    case Load(Arrives(_, fetched)) => fetched.Unavailable?
    case Load(WeekArrives(_, bodies)) => bodies.None?
    case _ => !FromElsewhere(e)
  }

  function OpenedKey(wraps: seq<WrapDto>, source: KeySource, answer: Assertion): Dek
    requires UnlockWith(wraps, source, answer).Ok?
  {
    UnlockWith(wraps, source, answer).value
  }

  /** Local rows are never sealed; remote ones are what the server sent of the page's account. */
  predicate IsTold(w: World, i: nat, e: Event)
    requires i in w.pages
  {
    match e
    case Probe(Status(k, Some((account, enabled)))) => StatusHeard(i, k, account, enabled) in w.heard
    case Load(Arrives(k, Row(body))) =>
      && HasTask(w, i, k) && w.pages[i].tab.tasks[k].Loading?
      && (match w.pages[i].tab.tasks[k].inputs.backend
          case Local => body.None? || body.value.Plain?
          case Remote => w.pages[i].owner.Some?
                         && RowHeard(w.pages[i].owner.value, w.pages[i].tab.tasks[k].inputs.day, body) in w.heard)
    case Load(WeekArrives(k, Some(bodies))) =>
      && HasTask(w, i, k) && w.pages[i].tab.tasks[k].WeekLoading?
      && (match w.pages[i].tab.tasks[k].backend
          case Local => forall b :: b in bodies ==> b.Plain?
          case Remote => w.pages[i].owner.Some? && RangeHeard(w.pages[i].owner.value, bodies) in w.heard)
    case _ => false
  }

  /** A ceremony of the page has opened one of the wraps it was sent. */
  predicate KeyOpened(w: World, i: nat, e: Event, wraps: seq<WrapDto>, source: KeySource, answer: Assertion)
    requires i in w.pages
  {
    match e
    case Unlock(Opens(k, dek)) =>
      && HasTask(w, i, k) && w.pages[i].tab.tasks[k].Ceremony?
      && KeyObtained(w, w.pages[i].tab.tasks[k].who, wraps, source, answer) && dek == OpenedKey(wraps, source, answer)
    case Unlock(Holds(k, dek)) =>
      && HasTask(w, i, k) && w.pages[i].tab.tasks[k].Ceremony?
      && KeyObtained(w, w.pages[i].tab.tasks[k].who, wraps, source, answer) && dek == OpenedKey(wraps, source, answer)
    case Enter(SignInOpens(_, who, dek)) =>
      KeyObtained(w, who, wraps, source, answer) && dek == OpenedKey(wraps, source, answer)
    case _ => false
  }

  /** The server's word on the enable that this page's ceremony sent. */
  predicate EnableAnswers(w: World, i: nat, e: Event, r: Request) {
    && r.EnableReq? && r in w.sent && EnableDone(r.page, r.task) in w.heard
    && r.page == i && HasTask(w, i, r.task) && e == Unlock(Opens(r.task, r.dek))
  }

  predicate Caused(w: World, i: nat, e: Event, cause: Cause)
    requires i in w.pages
  {
    match cause
    case Itself => NeedsNoMessage(e)
    case Told => IsTold(w, i, e)
    case Opening(wraps, source, answer) => KeyOpened(w, i, e, wraps, source, answer)
    case Enabling(r) => EnableAnswers(w, i, e, r)
  }

  /** What the server may say, and to whom. */
  ghost predicate Servable(w: World, h: Heard) {
    match h
    case StatusHeard(i, k, account, enabled) =>
      HasTask(w, i, k) && w.pages[i].tab.tasks[k].ProbeStatus? && enabled == (account in w.db.encrypted)
    case WrapsHeard(user, wraps) => exists order :: IsListing(w.db, user, order) && wraps == Listing(w.db, order)
    case RowHeard(user, day, body) =>
      body == if (user, day) in w.db.entries then Some(w.db.entries[(user, day)]) else None
    case RangeHeard(user, bodies) =>
      forall b :: b in bodies ==> exists day :: (user, day) in w.db.entries && w.db.entries[(user, day)] == b
    case EnableDone(_, _) => false
  }

  ghost predicate CanEnable(w: World, r: Request, cred: Option<CredId>, minted: Bytes)
    requires r.EnableReq?
  {
    && HasTask(w, r.page, r.task) && w.pages[r.page].tab.tasks[r.task].Ceremony?
    && r.user == w.pages[r.page].tab.tasks[r.task].who && |minted| == Codec.KEY_BYTES
    && r.passkey == EnableWith(cred, r.dek, minted).passkeyWrap && r.keyBlob == EnableWith(cred, r.dek, minted).keyWrap
    && forall q :: q in w.sent && q.EnableReq? ==> q.page != r.page || q.task != r.task
  }

  predicate CanAdd(w: World, r: Request, plan: Plan)
    requires r.AddReq? && plan.Add?
  {
    && WrapsHeard(r.user, plan.wraps) in w.heard
    && AddPasskeyKey(plan.wraps, r.cred, plan.source, plan.answer, plan.second) == Ok(r.blob)
  }

  predicate CanReissue(w: World, r: Request, plan: Plan)
    requires r.ReplaceReq? && plan.Reissue?
  {
    && WrapsHeard(r.user, plan.wraps) in w.heard && |plan.minted| == Codec.KEY_BYTES
    && ExistingRoute(plan.wraps, plan.source, plan.answer).Ok?
    && ReissueKey(ExistingRoute(plan.wraps, plan.source, plan.answer).value, plan.minted).Ok?
    && r.blob == ReissueKey(ExistingRoute(plan.wraps, plan.source, plan.answer).value, plan.minted).value.wrap
  }

  /** The storage seam seals with the page's key, and only then sends. */
  predicate CanSave(w: World, r: Request, i: nat, text: string)
    requires r.SaveReq?
  {
    && i in w.pages && w.pages[i].owner == Some(r.user)
    && (match TargetOf(BackendOf(w.pages[i].tab.user), WriteKeyOf(w.pages[i].tab.ctx.state))
        case Ok(ToRemote(key)) => r.body == Sealed(key.dek, text)
        case _ => false)
  }

  ghost predicate CanSend(w: World, r: Request, plan: Plan) {
    match (r, plan)
    case (EnableReq(_, _, _, _, _, _), Prepare(cred, minted)) => CanEnable(w, r, cred, minted)
    case (AddReq(_, _, _), Add(_, _, _, _)) => CanAdd(w, r, plan)
    case (ReplaceReq(_, _), Reissue(_, _, _, _)) => CanReissue(w, r, plan)
    case (SaveReq(_, _, _, _), Save(i, text)) => CanSave(w, r, i, text)
    case _ => false
  }

  ghost predicate Can(w: World, a: Act) {
    match a
    case OpenPage(_, _, _) => true
    case ClosePage(_) => true
    case OnPage(i, e, cause) => i in w.pages && Caused(w, i, e, cause)
    case Serve(h) => Servable(w, h)
    case Send(r, plan) => CanSend(w, r, plan)
    case Execute(r) => r in w.sent
    case LateInsert(r) => r in w.sent && r.AddReq?
    case Manage(_, call) => call.RegisterPasskey? || call.DeletePasskey?
  }

  ghost function Next(w: World, a: Act): World
    requires Can(w, a)
  {
    match a
    case OpenPage(owner, browser, today) =>
      w.(pages := w.pages[w.nextPage := Page(Opened(w.nextPage, owner, StoreOf(w, browser), today), owner, browser)],
         nextPage := w.nextPage + 1)
    case ClosePage(i) => w.(pages := w.pages - {i})
    case OnPage(i, e, _) => Acted(w, i, e)
    case Serve(h) => w.(heard := w.heard + {h})
    case Send(r, _) => w.(sent := w.sent + {r})
    case Execute(r) => Executed(w, r)
    case LateInsert(r) => w.(db := AddInserted(w.db, r.user, r.cred, r.blob).0)
    case Manage(user, call) => w.(db := After(w.db, user, call))
  }

  /** `acts` can be carried out one after the other, from `w`, and lead to `end`. */
  ghost predicate Reaches(w: World, acts: seq<Act>, end: World)
    decreases |acts|
  {
    if acts == [] then end == w
    else Can(w, acts[0]) && Reaches(Next(w, acts[0]), acts[1..], end)
  }
}

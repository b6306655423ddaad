/**
 Uploads and completions running interleaved, with crashes between any two database or bucket operations.
 */
module FileRuns {
  import opened Wrappers
  import opened FileBinding

  type CallId = nat

  // `file` is the record as this call loaded it, with the changes it has made so far.
  datatype Pc =
    | Loading
    | Probing(file: FileRecord)   // asking the bucket whether the object is there
    | Binding(file: FileRecord)
    | Saving(file: FileRecord)    // link written, file record not yet
    | Over(ok: bool)

  datatype Call = Call(user: Id, bind: Bind, id: FileId, pc: Pc)

  datatype State = State(store: Store, calls: map<CallId, Call>)

  datatype Step =
    | AddUser(user: Id)
    | AddProduct(product: Id)
    | RemoveProduct(product: Id)
    | Presign(user: Id, kind: Kind, productId: Option<Id>, uuid: string, ext: string, id: FileId)
    | Upload(id: FileId)           // the client puts the object under the presigned key
    | BeginComplete(c: CallId, user: Id, bind: Bind, id: FileId)
    | Load(c: CallId)
    | Probe(c: CallId)
    | BindFile(c: CallId)
    | SaveFile(c: CallId)
    | Crash(c: CallId)

  const START := State(Store({}, {}, map[], {}, map[], map[]), map[])

  predicate At(s: State, c: CallId) {
    c in s.calls
  }

  predicate Enabled(s: State, step: Step) {
    match step
    case AddUser(user) => SlashFree(user)
    case AddProduct(product) => SlashFree(product)
    case RemoveProduct(product) => product in s.store.products
    case Presign(user, _, _, _, _, id) => user in s.store.users && id !in s.store.files
    case Upload(id) => id in s.store.files
    case BeginComplete(c, user, bind, _) =>
      && c !in s.calls && SlashFree(user)
      && (bind.ToProduct? && bind.product.Some? ==> SlashFree(bind.product.value))
    case Load(c) => At(s, c) && s.calls[c].pc.Loading?
    case Probe(c) => At(s, c) && s.calls[c].pc.Probing?
    case BindFile(c) => At(s, c) && s.calls[c].pc.Binding?
    case SaveFile(c) => At(s, c) && s.calls[c].pc.Saving? && s.calls[c].id in s.store.files
    case Crash(c) => At(s, c) && !s.calls[c].pc.Over?
  }

  function Goto(s: State, c: CallId, pc: Pc): State
    requires At(s, c)
  {
    s.(calls := s.calls[c := s.calls[c].(pc := pc)])
  }

  function AfterLoad(s: Store, call: Call): Pc {
    if call.id !in s.files || s.files[call.id].owner != call.user then Over(false)
    else if s.files[call.id].status.Pending? then Probing(s.files[call.id])
    else Binding(s.files[call.id])
  }

  function Next(s: State, step: Step): State
    requires Enabled(s, step)
  {
    match step
    case AddUser(user) => s.(store := s.store.(users := s.store.users + {user}))
    case AddProduct(product) => s.(store := s.store.(products := s.store.products + {product}))
    case RemoveProduct(product) =>
      s.(store := s.store.(products := s.store.products - {product}, images := s.store.images - {product}))
    case Presign(user, kind, product, uuid, ext, id) =>
      var target := PresignTarget(s.store, user, kind, product);
      if target.None? then s
      else s.(store := s.store.(files := s.store.files[id := NewRecord(user, target.value, uuid, ext)]))
    case Upload(id) => s.(store := s.store.(objects := s.store.objects + {s.store.files[id].key}))
    case BeginComplete(c, user, bind, id) => s.(calls := s.calls[c := Call(user, bind, id, Loading)])
    case Load(c) => Goto(s, c, AfterLoad(s.store, s.calls[c]))
    case Probe(c) =>
      var file := s.calls[c].pc.file;
      Goto(s, c, if file.key in s.store.objects then Binding(file.(status := Ready)) else Over(false))
    case BindFile(c) =>
      var call := s.calls[c];
      if !MayBind(s.store, call.user, call.bind, call.pc.file) then Goto(s, c, Over(false))
      else
        var target := Asked(call.user, call.bind).value;
        Goto(s, c, Saving(call.pc.file.(entity := Some(TargetId(target))))).(store := Link(s.store, target, call.id))
    case SaveFile(c) =>
      var call := s.calls[c];
      var stored := s.store.files[call.id].(status := call.pc.file.status, entity := call.pc.file.entity);
      Goto(s, c, Over(true)).(store := s.store.(files := s.store.files[call.id := stored]))
    case Crash(c) => Goto(s, c, Over(false))
  }

  ghost predicate Runs(s: State, steps: seq<Step>, t: State)
    decreases |steps|
  {
    if steps == [] then s == t
    else Enabled(s, steps[0]) && Runs(Next(s, steps[0]), steps[1..], t)
  }

  // ---------------------------------------------------------------------------------------------
  // Invariants

  // A file's key was built for its owner's avatar or for some product.
  predicate KeyOk(record: FileRecord) {
    var target := TargetOf(record.key);
    && target.Some? && SlashFree(TargetId(target.value))
    && (target.value.AvatarOf? ==> target.value.user == record.owner)
  }

  predicate Present(s: Store, record: FileRecord) {
    record.key in s.objects
  }

  ghost predicate FilesOk(s: Store) {
    && (forall u :: u in s.users ==> SlashFree(u)) && (forall p :: p in s.products ==> SlashFree(p))
    && (forall id :: id in s.files ==> KeyOk(s.files[id]) && (s.files[id].status.Ready? ==> Present(s, s.files[id])))
  }

  // An avatar shows a file of that user, made for that user's avatar, whose object is there; a product image shows
  // a file made for that product, whose object is there.
  ghost predicate LinksOk(s: Store) {
    && (forall u :: u in s.avatars ==>
          var id := s.avatars[u];
          && id in s.files && s.files[id].owner == u
          && TargetOf(s.files[id].key) == Some(AvatarOf(u)) && Present(s, s.files[id]))
    && (forall p :: p in s.images ==>
          var id := s.images[p];
          id in s.files && TargetOf(s.files[id].key) == Some(ImageOf(p)) && Present(s, s.files[id]))
  }

  predicate HasFile(pc: Pc) {
    pc.Probing? || pc.Binding? || pc.Saving?
  }

  // The record a call works on is the stored one up to status and entity, and checked to exist before binding.
  ghost predicate CallOk(s: Store, call: Call) {
    && SlashFree(call.user)
    && (call.bind.ToProduct? && call.bind.product.Some? ==> SlashFree(call.bind.product.value))
    && (HasFile(call.pc) ==>
          && call.id in s.files && call.pc.file.key == s.files[call.id].key
          && call.pc.file.owner == s.files[call.id].owner == call.user)
    && (call.pc.Binding? || call.pc.Saving? ==> call.pc.file.status.Ready? && Present(s, call.pc.file))
  }

  ghost predicate Inv(s: State) {
    FilesOk(s.store) && LinksOk(s.store) && forall c :: c in s.calls ==> CallOk(s.store, s.calls[c])
  }

  lemma NewKeyOk(user: Id, target: Target, uuid: string, ext: string)
    requires SlashFree(user) && SlashFree(TargetId(target)) && (target.AvatarOf? ==> target.user == user)
    ensures KeyOk(NewRecord(user, target, uuid, ext))
  {
    assert BuildObjectKey(target, uuid, ext) == Prefix(target) + (uuid + "." + ext);
    KeyNamesTarget(target, uuid + "." + ext);
  }

  lemma StepKeepsFiles(s: State, step: Step)
    requires Enabled(s, step) && Inv(s)
    ensures FilesOk(Next(s, step).store)
  {
    if step.Presign? {
      var target := PresignTarget(s.store, step.user, step.kind, step.productId);
      if target.Some? { NewKeyOk(step.user, target.value, step.uuid, step.ext); }
    }
    if step.SaveFile? { assert CallOk(s.store, s.calls[step.c]); }
  }

  // Files keep their key and owner, and objects stay.
  ghost predicate Grows(s: Store, s': Store) {
    && s.objects <= s'.objects
    && (forall id :: id in s.files ==>
          id in s'.files && s'.files[id].key == s.files[id].key && s'.files[id].owner == s.files[id].owner)
  }

  lemma StepGrows(s: State, step: Step)
    requires Enabled(s, step)
    ensures Grows(s.store, Next(s, step).store)
  {
  }

  lemma LinksStayOk(s: Store, s': Store)
    requires LinksOk(s) && Grows(s, s') && s'.avatars == s.avatars
    requires forall p :: p in s'.images ==> p in s.images && s'.images[p] == s.images[p]
    ensures LinksOk(s')
  {
  }

  lemma BindKeepsLinks(s: State, step: Step)
    requires Enabled(s, step) && step.BindFile? && LinksOk(s.store) && CallOk(s.store, s.calls[step.c])
    ensures LinksOk(Next(s, step).store)
  {
    var call := s.calls[step.c];
    if MayBind(s.store, call.user, call.bind, call.pc.file) {
      PrefixNamesTarget(call.pc.file.key, Asked(call.user, call.bind).value);
    }
  }

  lemma StepKeepsLinks(s: State, step: Step)
    requires Enabled(s, step) && Inv(s)
    ensures LinksOk(Next(s, step).store)
  {
    if step.BindFile? {
      BindKeepsLinks(s, step);
    } else {
      StepGrows(s, step);
      LinksStayOk(s.store, Next(s, step).store);
    }
  }

  lemma CallStaysOk(s: Store, s': Store, call: Call)
    requires CallOk(s, call) && Grows(s, s')
    ensures CallOk(s', call)
  {
  }

  lemma MovedCallIsOk(s: State, step: Step, c: CallId)
    requires Enabled(s, step) && FilesOk(s.store) && c in Next(s, step).calls
    requires c in s.calls ==> CallOk(s.store, s.calls[c]) && Next(s, step).calls[c] != s.calls[c]
    ensures CallOk(Next(s, step).store, Next(s, step).calls[c])
  {
  }

  lemma StepKeepsCalls(s: State, step: Step)
    requires Enabled(s, step) && Inv(s)
    ensures forall c :: c in Next(s, step).calls ==> CallOk(Next(s, step).store, Next(s, step).calls[c])
  {
    StepGrows(s, step);
    forall c | c in Next(s, step).calls ensures CallOk(Next(s, step).store, Next(s, step).calls[c]) {
      if c in s.calls && Next(s, step).calls[c] == s.calls[c] {
        CallStaysOk(s.store, Next(s, step).store, s.calls[c]);
      } else {
        MovedCallIsOk(s, step, c);
      }
    }
  }

  lemma {:induction false} RunKeepsInv(s: State, steps: seq<Step>, t: State)
    requires Inv(s) && Runs(s, steps, t)
    ensures Inv(t)
    decreases |steps|
  {
    if steps != [] {
      StepKeepsFiles(s, steps[0]);
      StepKeepsLinks(s, steps[0]);
      StepKeepsCalls(s, steps[0]);
      RunKeepsInv(Next(s, steps[0]), steps[1..], t);
    }
  }

  /** In every reachable state, also between a binding and its save and after a crash there: an avatar is a file its
      user owns, built for that user's avatar; a product image is a file built for that product; and both show an
      object that exists. READY files have their object. */
  lemma LinksAreSound(steps: seq<Step>, t: State)
    requires Runs(START, steps, t)
    ensures LinksOk(t.store)
    ensures forall id :: id in t.store.files && t.store.files[id].status.Ready? ==>
              t.store.files[id].key in t.store.objects
  {
    RunKeepsInv(START, steps, t);
  }

  /** A file names one target only: nothing reachable shows one file both as an avatar and as a product image, or
      for two users, or for two products. */
  lemma OneTargetPerFile(steps: seq<Step>, t: State)
    requires Runs(START, steps, t)
    ensures forall u, p :: u in t.store.avatars && p in t.store.images ==> t.store.avatars[u] != t.store.images[p]
    ensures forall u, v :: u in t.store.avatars && v in t.store.avatars && u != v ==>
              t.store.avatars[u] != t.store.avatars[v]
    ensures forall p, q :: p in t.store.images && q in t.store.images && p != q ==>
              t.store.images[p] != t.store.images[q]
  {
    RunKeepsInv(START, steps, t);
  }

  /** A completion that is not interrupted does what completeUpload does alone. */
  lemma UninterruptedIsAlone(s: State, c: CallId) returns (steps: seq<Step>, t: State)
    requires c in s.calls && s.calls[c].pc.Loading?
    ensures var call := s.calls[c];
            var (store, ok) := CompleteAlone(s.store, call.user, call.bind, call.id);
            Runs(s, steps, t) && t.store == store && t.calls == s.calls[c := call.(pc := Over(ok))]
  {
    var s1 := Next(s, Load(c));
    if s1.calls[c].pc.Over? {
      steps, t := [], s1;
    } else if s1.calls[c].pc.Probing? {
      steps, t := ProbeAndBind(s1, c);
    } else {
      steps, t := BindAndSave(s1, c);
    }
    RunsCons(s, Load(c), steps, t);
    steps := [Load(c)] + steps;
  }

  lemma ProbeAndBind(s: State, c: CallId) returns (steps: seq<Step>, t: State)
    requires c in s.calls && s.calls[c].pc.Probing? && s.calls[c].id in s.store.files
    requires s.calls[c].pc.file == s.store.files[s.calls[c].id]
    ensures Runs(s, steps, t)
    ensures var call, file := s.calls[c], s.calls[c].pc.file;
            if file.key in s.store.objects && MayBind(s.store, call.user, call.bind, file) then
              var target := Asked(call.user, call.bind).value;
              && t.store == Link(s.store, target, call.id).(files :=
                   s.store.files[call.id := file.(status := Ready, entity := Some(TargetId(target)))])
              && t.calls == s.calls[c := call.(pc := Over(true))]
            else t.store == s.store && t.calls == s.calls[c := call.(pc := Over(false))]
  {
    var s1 := Next(s, Probe(c));
    if s1.calls[c].pc.Over? {
      steps, t := [], s1;
    } else {
      steps, t := BindAndSave(s1, c);
    }
    RunsCons(s, Probe(c), steps, t);
    steps := [Probe(c)] + steps;
  }

  lemma RunsCons(s: State, step: Step, steps: seq<Step>, t: State)
    requires Enabled(s, step) && Runs(Next(s, step), steps, t)
    ensures Runs(s, [step] + steps, t)
  {
    assert ([step] + steps)[1..] == steps;
  }

  lemma BindAndSave(s: State, c: CallId) returns (steps: seq<Step>, t: State)
    requires c in s.calls && s.calls[c].pc.Binding? && s.calls[c].id in s.store.files
    requires s.calls[c].pc.file.key == s.store.files[s.calls[c].id].key
          && s.calls[c].pc.file.owner == s.store.files[s.calls[c].id].owner
    ensures Runs(s, steps, t)
    ensures var call, file := s.calls[c], s.calls[c].pc.file;
            if MayBind(s.store, call.user, call.bind, file) then
              var target := Asked(call.user, call.bind).value;
              && t.store == Link(s.store, target, call.id).(files :=
                   s.store.files[call.id := file.(entity := Some(TargetId(target)))])
              && t.calls == s.calls[c := call.(pc := Over(true))]
            else t.store == s.store && t.calls == s.calls[c := call.(pc := Over(false))]
  {
    var s1 := Next(s, BindFile(c));
    if s1.calls[c].pc.Over? {
      t := s1;
      assert Runs(s1, [], s1);
      RunsCons(s, BindFile(c), [], s1);
      steps := [BindFile(c)] + [];
    } else {
      t := Next(s1, SaveFile(c));
      assert Runs(t, [], t);
      RunsCons(s1, SaveFile(c), [], t);
      RunsCons(s, BindFile(c), [SaveFile(c)] + [], t);
      steps := [BindFile(c)] + ([SaveFile(c)] + []);
    }
  }

  // A request presigning lets through, and what it is for.
  predicate Presignable(s: Store, kind: Kind, product: Option<Id>) {
    if kind.Avatar? then product.None? || product.value == ""
    else product.Some? && product.value != "" && product.value in s.products
  }

  function TargetAsked(user: Id, kind: Kind, product: Option<Id>): Target
    requires kind.ProductImage? ==> product.Some?
  {
    if kind.Avatar? then AvatarOf(user) else ImageOf(product.value)
  }

  /** From any reachable state: who presigns an avatar or a product image and uploads it can complete it; the file is
      then READY and shown, the caller's avatar or that product's image. */
  lemma UploaderCompletes(before: seq<Step>, s: State, user: Id, kind: Kind, product: Option<Id>, uuid: string,
      ext: string, id: FileId, c: CallId) returns (steps: seq<Step>, t: State)
    requires Runs(START, before, s) && user in s.store.users && Presignable(s.store, kind, product)
    requires id !in s.store.files && c !in s.calls
    ensures Runs(s, steps, t) && c in t.calls && t.calls[c].pc == Over(true)
    ensures id in t.store.files && t.store.files[id].owner == user && t.store.files[id].status == Ready
    ensures t.store.files[id].key in t.store.objects
    ensures if kind.Avatar? then user in t.store.avatars && t.store.avatars[user] == id
            else product.value in t.store.images && t.store.images[product.value] == id
  {
    RunKeepsInv(START, before, s);
    var target := TargetAsked(user, kind, product);
    var bind := if kind.Avatar? then ToAvatar else ToProduct(product);
    var u := Uploaded(s, user, kind, product, uuid, ext, id);
    var begun := Next(u, BeginComplete(c, user, bind, id));
    BuiltKeyStarts(target, uuid, ext);
    CompleteIsExact(begun.store, user, bind, id, target);
    var rest;
    rest, t := UninterruptedIsAlone(begun, c);
    RunsCons(u, BeginComplete(c, user, bind, id), rest, t);
    steps := [BeginComplete(c, user, bind, id)] + rest;
    var presign := Presign(user, kind, product, uuid, ext, id);
    RunsCons(Next(s, presign), Upload(id), steps, t);
    RunsCons(s, presign, [Upload(id)] + steps, t);
    steps := [presign] + ([Upload(id)] + steps);
  }

  // The state after presigning and uploading.
  function Uploaded(
      s: State, user: Id, kind: Kind, product: Option<Id>, uuid: string, ext: string, id: FileId): (u: State)
    requires user in s.store.users && id !in s.store.files && Presignable(s.store, kind, product)
    ensures var (target, step) := (TargetAsked(user, kind, product), Presign(user, kind, product, uuid, ext, id));
            && Enabled(Next(s, step), Upload(id)) && u == Next(Next(s, step), Upload(id))
            && id in u.store.files && u.store.files[id] == NewRecord(user, target, uuid, ext)
            && u.store.files[id].key in u.store.objects && u.calls == s.calls
            && u.store.users == s.store.users && u.store.products == s.store.products
  {
    Next(Next(s, Presign(user, kind, product, uuid, ext, id)), Upload(id))
  }
}

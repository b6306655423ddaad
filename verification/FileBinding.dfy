/**
 Uploading a file and binding it as an avatar or a product image (src/files/files.service.ts, lines 43-97 and
 243-319), one step per awaited operation, any number of calls at once, with crashes in between.
 */
module FileBinding {
  import opened Wrappers

  type FileId = nat
  type Id = string  // user and product ids: uuids, in particular without a slash

  datatype Kind = Avatar | ProductImage

  datatype Target = AvatarOf(user: Id) | ImageOf(product: Id)

  datatype FileStatus = Pending | Ready

  datatype FileRecord = FileRecord(owner: Id, entity: Option<Id>, key: string, status: FileStatus)

  predicate SlashFree(s: string) {
    forall i :: 0 <= i < |s| ==> s[i] != '/'
  }

  // ---------------------------------------------------------------------------------------------
  // Object keys

  function Prefix(target: Target): string {
    match target
    case AvatarOf(user) => "users/" + user + "/avatars/"
    case ImageOf(product) => "products/" + product + "/images/"
  }

  function BuildObjectKey(target: Target, uuid: string, ext: string): string {
    Prefix(target) + uuid + "." + ext
  }

  predicate StartsWith(s: string, prefix: string) {
    |prefix| <= |s| && s[..|prefix|] == prefix
  }

  function TargetId(target: Target): Id {
    if target.AvatarOf? then target.user else target.product
  }

  // Reading a key back: the id ends at the next slash.
  function UpToSlash(s: string): string {
    if s == "" || s[0] == '/' then "" else [s[0]] + UpToSlash(s[1..])
  }

  function TargetOf(key: string): Option<Target> {
    if StartsWith(key, "users/") then Some(AvatarOf(UpToSlash(key[6..])))
    else if StartsWith(key, "products/") then Some(ImageOf(UpToSlash(key[9..])))
    else None
  }

  lemma {:induction false} SlashEndsId(id: string, rest: string)
    requires SlashFree(id)
    ensures UpToSlash(id + "/" + rest) == id
  {
    if id == "" {
      assert id + "/" + rest == "/" + rest;
    } else {
      SlashEndsId(id[1..], rest);
      assert (id + "/" + rest)[1..] == id[1..] + "/" + rest;
    }
  }

  lemma PrefixDrops(prefix: string, rest: string)
    ensures StartsWith(prefix + rest, prefix) && (prefix + rest)[|prefix|..] == rest
  {
  }

  lemma Regroup(a: string, id: string, b: string, tail: string)
    ensures a + id + ("/" + b) + tail == a + (id + "/" + (b + tail))
  {
  }

  lemma AvatarKeyNamesUser(user: Id, tail: string)
    requires SlashFree(user)
    ensures TargetOf(Prefix(AvatarOf(user)) + tail) == Some(AvatarOf(user))
  {
    assert "/avatars/" == "/" + "avatars/";
    Regroup("users/", user, "avatars/", tail);
    PrefixDrops("users/", user + "/" + ("avatars/" + tail));
    SlashEndsId(user, "avatars/" + tail);
  }

  lemma ImageKeyNamesProduct(product: Id, tail: string)
    requires SlashFree(product)
    ensures TargetOf(Prefix(ImageOf(product)) + tail) == Some(ImageOf(product))
  {
    assert "/images/" == "/" + "images/";
    Regroup("products/", product, "images/", tail);
    PrefixDrops("products/", product + "/" + ("images/" + tail));
    assert (Prefix(ImageOf(product)) + tail)[0] == 'p';
    SlashEndsId(product, "images/" + tail);
  }

  /** Round trip: whatever follows its prefix, a key names the target it was built for. */
  lemma KeyNamesTarget(target: Target, tail: string)
    requires SlashFree(TargetId(target))
    ensures TargetOf(Prefix(target) + tail) == Some(target)
  {
    match target
    case AvatarOf(user) => AvatarKeyNamesUser(user, tail);
    case ImageOf(product) => ImageKeyNamesProduct(product, tail);
  }

  lemma PrefixNamesTarget(key: string, asked: Target)
    requires SlashFree(TargetId(asked)) && StartsWith(key, Prefix(asked))
    ensures TargetOf(key) == Some(asked)
  {
    assert key == Prefix(asked) + key[|Prefix(asked)|..];
    KeyNamesTarget(asked, key[|Prefix(asked)|..]);
  }

  /** A key passes the prefix check of a target exactly when it was built for that target: slash-free ids make the
      prefix unambiguous. */
  lemma PrefixDeterminesTarget(built: Target, uuid: string, ext: string, asked: Target)
    requires SlashFree(TargetId(built)) && SlashFree(TargetId(asked))
    ensures StartsWith(BuildObjectKey(built, uuid, ext), Prefix(asked)) <==> built == asked
  {
    BuiltKeyStarts(built, uuid, ext);
    PrefixNamesTarget(BuildObjectKey(built, uuid, ext), built);
    if StartsWith(BuildObjectKey(built, uuid, ext), Prefix(asked)) {
      PrefixNamesTarget(BuildObjectKey(built, uuid, ext), asked);
    }
  }

  lemma BuiltKeyStarts(target: Target, uuid: string, ext: string)
    ensures StartsWith(BuildObjectKey(target, uuid, ext), Prefix(target))
  {
    var prefix := Prefix(target);
    assert prefix + uuid + "." + ext == prefix + (uuid + "." + ext);
    PrefixDrops(prefix, uuid + "." + ext);
  }

  // ---------------------------------------------------------------------------------------------
  // The tables and the service working alone

  // objects: keys present in the bucket. avatars, images: users.avatar_file_id and products.image_file_id.
  datatype Store = Store(
    users: set<Id>, products: set<Id>, files: map<FileId, FileRecord>, objects: set<string>,
    avatars: map<Id, FileId>, images: map<Id, FileId>)

  // bindTo with its productId
  datatype Bind = ToAvatar | ToProduct(product: Option<Id>)

  // What validateUploadInput lets through; content type and size are checked before and are not modelled.
  function PresignTarget(s: Store, user: Id, kind: Kind, product: Option<Id>): Option<Target> {
    if kind.Avatar? then (if product.Some? && product.value != "" then None else Some(AvatarOf(user)))
    else if product.None? || product.value == "" || product.value !in s.products then None
    else Some(ImageOf(product.value))
  }

  function NewRecord(user: Id, target: Target, uuid: string, ext: string): FileRecord {
    FileRecord(user, if target.ImageOf? then Some(target.product) else None, BuildObjectKey(target, uuid, ext), Pending)
  }

  // The target a completion asks for; none if the product id is missing.
  function Asked(user: Id, bind: Bind): Option<Target> {
    match bind
    case ToAvatar => Some(AvatarOf(user))
    case ToProduct(product) => if product.Some? && product.value != "" then Some(ImageOf(product.value)) else None
  }

  predicate Exists(s: Store, target: Target) {
    if target.AvatarOf? then target.user in s.users else target.product in s.products
  }

  predicate MayBind(s: Store, user: Id, bind: Bind, record: FileRecord) {
    Asked(user, bind).Some? && StartsWith(record.key, Prefix(Asked(user, bind).value))
    && Exists(s, Asked(user, bind).value)
  }

  function Link(s: Store, target: Target, file: FileId): Store {
    if target.AvatarOf? then s.(avatars := s.avatars[target.user := file])
    else s.(images := s.images[target.product := file])
  }

  // completeUpload with nobody else around.
  function CompleteAlone(s: Store, user: Id, bind: Bind, file: FileId): (Store, bool) {
    if file !in s.files || s.files[file].owner != user then (s, false)
    else if s.files[file].status.Pending? && s.files[file].key !in s.objects then (s, false)
    else if !MayBind(s, user, bind, s.files[file]) then (s, false)
    else
      var target := Asked(user, bind).value;
      var record := s.files[file].(status := Ready, entity := Some(TargetId(target)));
      (Link(s, target, file).(files := s.files[file := record]), true)
  }

  // The record is one for this target: avatar or product image.
  predicate IsFor(record: FileRecord, target: Target) {
    SlashFree(TargetId(target)) && StartsWith(record.key, Prefix(target))
  }

  // The completion asks for this target.
  predicate AsksFor(user: Id, bind: Bind, target: Target) {
    match target
    case AvatarOf(u) => bind == ToAvatar && u == user
    case ImageOf(p) => bind == ToProduct(Some(p)) && p != ""
  }

  /** A completion succeeds exactly if the file is the caller's, its object is there or was found before, the caller
      asks for the target the file was made for, and that still exists. Then the file is READY and shown there, and
      nothing else changes; otherwise nothing does. */
  lemma CompleteIsExact(s: Store, user: Id, bind: Bind, file: FileId, target: Target)
    requires SlashFree(user) && (bind.ToProduct? && bind.product.Some? ==> SlashFree(bind.product.value))
    requires file in s.files ==> IsFor(s.files[file], target)
    ensures var (s', ok) := CompleteAlone(s, user, bind, file);
            && (ok <==>
                  && file in s.files && s.files[file].owner == user
                  && (s.files[file].status == Ready || s.files[file].key in s.objects)
                  && AsksFor(user, bind, target)
                  && (if target.AvatarOf? then user in s.users else target.product in s.products))
            && (ok ==>
                  && s'.files == s.files[file :=
                       FileRecord(user, Some(TargetId(target)), s.files[file].key, Ready)]
                  && s'.avatars == (if target.AvatarOf? then s.avatars[user := file] else s.avatars)
                  && s'.images == (if target.ImageOf? then s.images[target.product := file] else s.images)
                  && s'.users == s.users && s'.products == s.products && s'.objects == s.objects)
            && (!ok ==> s' == s)
  {
    if file in s.files {
      PrefixNamesTarget(s.files[file].key, target);
      var asked := Asked(user, bind);
      if asked.Some? && StartsWith(s.files[file].key, Prefix(asked.value)) {
        PrefixNamesTarget(s.files[file].key, asked.value);
      }
    }
  }

  class FilesService {
    var users: set<Id>
    var products: set<Id>
    var files: map<FileId, FileRecord>
    var objects: set<string>
    var avatars: map<Id, FileId>
    var images: map<Id, FileId>

    constructor (users: set<Id>, products: set<Id>)
      ensures Tables() == Store(users, products, map[], {}, map[], map[])
    {
      this.users, this.products := users, products;
      files, objects, avatars, images := map[], {}, map[], map[];
    }

    function Tables(): Store
      reads this
    {
      Store(users, products, files, objects, avatars, images)
    }

    /** Refused exactly for an avatar with a product id and for a product image without one or with one of no product;
        otherwise one more record: the caller's, PENDING, for that product or none, under the key for its target. */
    method CreatePresignedUpload(user: Id, kind: Kind, product: Option<Id>, uuid: string, ext: string, id: FileId)
      returns (key: Option<string>)
      requires id !in files
      modifies this`files
      ensures var target := PresignTarget(old(Tables()), user, kind, product);
              if target.None? then key.None? && files == old(files)
              else
                var record := NewRecord(user, target.value, uuid, ext);
                key == Some(record.key) && files == old(files)[id := record]
      ensures key.None? <==>
                if kind.Avatar? then product.Some? && product.value != ""
                else product.None? || product.value == "" || product.value !in products
      ensures key.None? ==> files == old(files)
      ensures key.Some? ==>
                && files == old(files)[id :=
                     FileRecord(user, if kind.Avatar? then None else product, key.value, Pending)]
                && key.value == (if kind.Avatar? then "users/" + user + "/avatars/"
                                 else "products/" + product.value + "/images/") + uuid + "." + ext
    {
      if kind == Avatar && product.Some? && product.value != "" {
        return None;
      }
      if kind == ProductImage && (product.None? || product.value == "" || product.value !in products) {
        return None;
      }
      var target := if kind == Avatar then AvatarOf(user) else ImageOf(product.value);
      key := Some(BuildObjectKey(target, uuid, ext));
      var entity := if kind == ProductImage then Some(product.value) else None;
      files := files[id := FileRecord(user, entity, key.value, Pending)];
    }

    method CompleteUpload(user: Id, bind: Bind, fileId: FileId) returns (ok: bool)
      modifies this
      ensures (Tables(), ok) == CompleteAlone(old(Tables()), user, bind, fileId)
    {
      if fileId !in files || files[fileId].owner != user {
        return false;
      }
      var file := files[fileId];
      if file.status == Pending {
        if file.key !in objects {
          return false;
        }
        file := file.(status := Ready);
      }
      var attached := AttachFileToDomain(user, bind, fileId, file.key);
      if attached.None? {
        return false;
      }
      files := files[fileId := file.(entity := attached)];
      return true;
    }

    // The link goes to the database before the file record does.
    method AttachFileToDomain(user: Id, bind: Bind, fileId: FileId, key: string) returns (entity: Option<Id>)
      modifies this`avatars, this`images
      ensures var target := Asked(user, bind);
              if target.Some? && StartsWith(key, Prefix(target.value)) && Exists(old(Tables()), target.value)
              then entity == Some(TargetId(target.value)) && Tables() == Link(old(Tables()), target.value, fileId)
              else entity.None? && Tables() == old(Tables())
    {
      match bind
      case ToAvatar =>
        if !StartsWith(key, "users/" + user + "/avatars/") || user !in users {
          return None;
        }
        avatars := avatars[user := fileId];
        return Some(user);
      case ToProduct(product) =>
        if product.None? || product.value == "" {
          return None;
        }
        if !StartsWith(key, "products/" + product.value + "/images/") || product.value !in products {
          return None;
        }
        images := images[product.value := fileId];
        return Some(product.value);
    }
  }
}

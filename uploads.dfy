/**
 * The image and link of a grid space: uploading an image, deleting it, and
 * editing the link and image together.  The image host is foreign: the URL
 * an upload returns is an input, and the identifier of an image to destroy
 * is an output, derived from its URL.
 */
module Uploads {
  import opened Wrappers
  import opened Api
  import Text
  import opened GridSpaces
  import opened GridStore
  import App

  /** The folder every image is uploaded to. */
  const Folder: string := "brands-in-india"

  /** `10 * 1024 * 1024` bytes. */
  const MaxImageBytes: int := 10 * 1024 * 1024

  const OwnerUnreadable: string := "Cannot read properties of null (reading 'toString')"
  const MimetypeUnreadable: string := "Cannot read properties of undefined (reading 'mimetype')"

  /** An uploaded file as the upload middleware describes it. */
  datatype File = File(name: string, mimetype: string, size: int)

  // ---------------------------------------------------------------------
  // Shared guards.

  /** The owner or an admin may change a space.  An unowned space has a
    * `null` owner, and reading its id throws before the role is looked at. */
  function Authorize(s: GridSpace, user: nat, role: string, denied: string): (r: Outcome<()>)
    ensures r.Ok? <==> s.owner.Some? && (s.owner.value == user || role == "admin")
    ensures s.owner.None? ==> r == Fail(ServerError, OwnerUnreadable)
  {
    if s.owner.None? then Fail(ServerError, OwnerUnreadable)
    else if s.owner.value != user && role != "admin" then Fail(Unauthorized, denied)
    else Ok(())
  }

  /** An image of at most 10 MiB. */
  function CheckImage(f: File): (r: Outcome<()>)
    ensures r.Ok? <==> Text.StartsWith(f.mimetype, "image") && f.size <= MaxImageBytes
    ensures r.Err? ==> r.error.status == BadRequest
  {
    if !Text.StartsWith(f.mimetype, "image") then Fail(BadRequest, "Please upload an image file")
    else if f.size > MaxImageBytes then Fail(BadRequest, "Please upload an image less than 10MB")
    else Ok(())
  }

  /** The image host's identifier of the image at `url`: the folder, then
    * the last path segment up to its first dot. */
  function PublicId(url: string): (r: string)
    ensures |r| > |Folder| && r[..|Folder| + 1] == Folder + "/"
    ensures '/' !in r[|Folder| + 1..] && '.' !in r[|Folder| + 1..]
  {
    var parts := Text.Split(url, '/');
    var name := Text.Split(parts[|parts| - 1], '.')[0];
    Text.SplitPartsFree(url, '/');
    Text.SplitPartsFree(parts[|parts| - 1], '.');
    Text.SplitChars(parts[|parts| - 1], '.');
    assert (Folder + "/" + name)[|Folder| + 1..] == name;
    Folder + "/" + name
  }

  /** An image uploaded as `name.ext` under any base URL is destroyed by
    * the identifier of its own name. */
  lemma PublicIdOfUpload(base: string, name: string, ext: string)
    requires '/' !in name && '.' !in name && '/' !in ext
    ensures PublicId(base + "/" + name + "." + ext) == "brands-in-india/" + name
  {
    var file := name + "." + ext;
    assert base + "/" + name + "." + ext == base + ['/'] + file;
    Text.SplitAppend(base, file, '/');
    assert '/' !in file;
    Text.SplitNoSep(file, '/');
    assert file == name + ['.'] + ext;
    Text.SplitAppend(name, ext, '.');
    Text.SplitNoSep(name, '.');
  }

  // ---------------------------------------------------------------------
  // uploadGridImage

  /** The guards of `uploadGridImage`, yielding the file to upload.  A
    * request whose files lack the `file` field reads `mimetype` of
    * `undefined`. */
  function UploadCheck(s: GridSpace, user: nat, role: string, files: Option<map<string, File>>): (r: Outcome<File>)
    ensures r.Ok? <==>
      Authorize(s, user, role, "").Ok? && files.Some? && "file" in files.value
      && CheckImage(files.value["file"]).Ok?
    ensures r.Ok? ==> r.value == files.value["file"]
  {
    var _ :- Authorize(s, user, role, "Not authorized to upload to this grid space");
    if files.None? || |files.value.Keys| == 0 then Fail(BadRequest, "No files were uploaded")
    else if "file" !in files.value then Fail(ServerError, MimetypeUnreadable)
    else
      var f := files.value["file"];
      var _ :- CheckImage(f);
      Ok(f)
  }

  /** `uploadGridImage`: the space's image becomes the uploaded URL; the
    * response names the file and the URL. */
  method UploadGridImage(db: Db, id: nat, user: nat, role: string, files: Option<map<string, File>>,
                         url: string, now: int)
    returns (r: Outcome<(string, string, GridSpace)>)
    requires db.Valid()
    modifies db
    ensures db.Valid()
    ensures id !in old(db.spaces) ==> r == Fail(NotFound, "Grid space not found") && unchanged(db)
    ensures id in old(db.spaces) ==>
      var c := UploadCheck(old(db.spaces)[id], user, role, files);
      (c.Err? ==> r == Err(c.error) && unchanged(db))
      && (c.Ok? ==>
            var s := old(db.spaces)[id].(image := Some(url), updatedAt := now);
            r == Ok((c.value.name, url, s)) && db.spaces == old(db.spaces)[id := s])
    ensures db.layouts == old(db.layouts) && db.biddings == old(db.biddings)
    ensures db.transactions == old(db.transactions)
  {
    if id !in db.spaces {
      return Fail(NotFound, "Grid space not found");
    }
    var s := db.spaces[id];
    var c := UploadCheck(s, user, role, files);
    if c.Err? {
      return Err(c.error);
    }
    db.SaveSpace(id, s.(image := Some(url)), now);
    r := Ok((c.value.name, url, db.spaces[id]));
  }

  // ---------------------------------------------------------------------
  // deleteGridImage

  /** The guards of `deleteGridImage`, yielding the identifier to destroy. */
  function DeleteCheck(s: GridSpace, user: nat, role: string): (r: Outcome<string>)
    ensures r.Ok? <==> Authorize(s, user, role, "").Ok? && Truthy(s.image)
    ensures r.Ok? ==> r.value == PublicId(s.image.value)
  {
    var _ :- Authorize(s, user, role, "Not authorized to modify this grid space");
    if !Truthy(s.image) then Fail(BadRequest, "No image to delete")
    else Ok(PublicId(s.image.value))
  }

  /** The response of `deleteGridImage` as written: the handler names its
    * response parameter `rest` but answers through `res`, which is not
    * defined, so once the image is cleared the request fails. */
  function DeleteReplyAsWritten(s: GridSpace, user: nat, role: string, now: int): (r: Outcome<GridSpace>)
    ensures r.Ok? ==> false
  {
    var _ :- DeleteCheck(s, user, role);
    Fail(ServerError, "res is not defined")
  }

  /** The response as intended: the space with its image cleared. */
  function DeleteReply(s: GridSpace, user: nat, role: string, now: int): (r: Outcome<GridSpace>)
    ensures r.Ok? <==> DeleteCheck(s, user, role).Ok?
    ensures r.Ok? ==> r.value.image.None? && r.value == s.(image := None, updatedAt := now)
  {
    var _ :- DeleteCheck(s, user, role);
    Ok(s.(image := None, updatedAt := now))
  }

  /** The two agree on every refusal; where the intended handler answers
    * with the cleared space, the handler as written clears the image just
    * the same but answers 500 with the message "res is not defined". */
  lemma DeleteReplyDiscrepancy(s: GridSpace, user: nat, role: string, now: int)
    ensures DeleteReply(s, user, role, now).Err? ==>
      DeleteReplyAsWritten(s, user, role, now) == DeleteReply(s, user, role, now)
    ensures DeleteReply(s, user, role, now).Ok? ==>
      App.ErrorResponse(DeleteReplyAsWritten(s, user, role, now).error) == (500, "res is not defined")
  {
  }

  /** A concrete request: the owner deletes the image of a purchased
    * space. */
  lemma DeleteReplyWitness()
    ensures var s := GridSpace(0, 0, 1, 1, Some(10.0), Purchased, Some(7), Some("https://cdn/x/a.png"), None,
                               0, 0, None, None, 0, 0);
      DeleteReply(s, 7, "brand", 5).Ok? && DeleteReplyAsWritten(s, 7, "brand", 5).Err?
  {
    var s := GridSpace(0, 0, 1, 1, Some(10.0), Purchased, Some(7), Some("https://cdn/x/a.png"), None,
                       0, 0, None, None, 0, 0);
    assert Truthy(s.image);
  }

  /** `deleteGridImage` as written: the image is destroyed and cleared,
    * then the request fails. */
  method DeleteGridImageAsWritten(db: Db, id: nat, user: nat, role: string, now: int)
    returns (r: Outcome<GridSpace>, destroyed: Option<string>)
    requires db.Valid()
    modifies db
    ensures db.Valid()
    ensures id !in old(db.spaces) ==> r == Fail(NotFound, "Grid space not found") && unchanged(db)
    ensures id in old(db.spaces) ==>
      var s := old(db.spaces)[id];
      r == DeleteReplyAsWritten(s, user, role, now)
      && (DeleteCheck(s, user, role).Ok? ==>
            destroyed == Some(DeleteCheck(s, user, role).value)
            && db.spaces == old(db.spaces)[id := s.(image := None, updatedAt := now)])
      && (DeleteCheck(s, user, role).Err? ==> destroyed.None? && unchanged(db))
    ensures db.layouts == old(db.layouts) && db.biddings == old(db.biddings)
    ensures db.transactions == old(db.transactions)
  {
    destroyed := None;
    if id !in db.spaces {
      return Fail(NotFound, "Grid space not found"), None;
    }
    var s := db.spaces[id];
    var c := DeleteCheck(s, user, role);
    if c.Err? {
      return Err(c.error), None;
    }
    destroyed := Some(c.value);
    db.SaveSpace(id, s.(image := None), now);
    r := Fail(ServerError, "res is not defined");
  }

  /** `deleteGridImage` as intended: the image is destroyed and cleared,
    * and the space is returned. */
  method DeleteGridImage(db: Db, id: nat, user: nat, role: string, now: int)
    returns (r: Outcome<GridSpace>, destroyed: Option<string>)
    requires db.Valid()
    modifies db
    ensures db.Valid()
    ensures id !in old(db.spaces) ==> r == Fail(NotFound, "Grid space not found") && unchanged(db)
    ensures id in old(db.spaces) ==>
      var s := old(db.spaces)[id];
      r == DeleteReply(s, user, role, now)
      && (r.Ok? ==> destroyed == Some(PublicId(s.image.value)) && db.spaces == old(db.spaces)[id := r.value])
      && (r.Err? ==> destroyed.None? && unchanged(db))
    ensures db.layouts == old(db.layouts) && db.biddings == old(db.biddings)
    ensures db.transactions == old(db.transactions)
  {
    destroyed := None;
    if id !in db.spaces {
      return Fail(NotFound, "Grid space not found"), None;
    }
    var s := db.spaces[id];
    var c := DeleteCheck(s, user, role);
    if c.Err? {
      return Err(c.error), None;
    }
    destroyed := Some(c.value);
    db.SaveSpace(id, s.(image := None), now);
    r := Ok(db.spaces[id]);
  }

  // ---------------------------------------------------------------------
  // editGridSpace

  /** The `file` field of the request, when files came with it. */
  function FileOf(files: Option<map<string, File>>): Option<File> {
    if files.Some? && "file" in files.value then Some(files.value["file"]) else None
  }

  /** The guards of `editGridSpace` up to the upload. */
  function EditCheck(s: GridSpace, user: nat, role: string, file: Option<File>): (r: Outcome<()>)
    ensures r.Ok? <==> Authorize(s, user, role, "").Ok? && (file.Some? ==> CheckImage(file.value).Ok?)
  {
    var _ :- Authorize(s, user, role, "Not authorized to edit this grid space");
    if file.Some? then CheckImage(file.value) else Ok(())
  }

  /** The image destroyed by an edit: the old one, when a new image was
    * uploaded over it. */
  function EditDestroys(s: GridSpace, user: nat, role: string, file: Option<File>): Option<string> {
    if EditCheck(s, user, role, file).Ok? && file.Some? && Truthy(s.image) then Some(PublicId(s.image.value))
    else None
  }

  /** `editGridSpace` on a stored space: a truthy link replaces the old
    * one, an uploaded image replaces the old one, and at least one of the
    * two must be given. */
  function EditSpace(s: GridSpace, user: nat, role: string, clickUrl: Option<string>, file: Option<File>,
                     url: string, now: int): (r: Outcome<GridSpace>)
  {
    var _ :- EditCheck(s, user, role, file);
    var imageUrl := if file.Some? then Some(url) else None;
    if !Truthy(clickUrl) && !Truthy(imageUrl) then Fail(BadRequest, "No update parameters provided")
    else
      Ok(s.(clickUrl := if Truthy(clickUrl) then clickUrl else s.clickUrl,
            image := if Truthy(imageUrl) then imageUrl else s.image,
            updatedAt := now))
  }

  /** An edit succeeds exactly when it is allowed and brings a link or an
    * image; it then changes the link, the image and the update time and
    * nothing else. */
  lemma EditSpaceSpec(s: GridSpace, user: nat, role: string, clickUrl: Option<string>, file: Option<File>,
                      url: string, now: int)
    ensures var r := EditSpace(s, user, role, clickUrl, file, url, now);
      (r.Ok? <==>
        Authorize(s, user, role, "").Ok? && (file.Some? ==> CheckImage(file.value).Ok?)
        && (Truthy(clickUrl) || (file.Some? && |url| > 0)))
      && (r.Ok? ==>
            (r.value.clickUrl == (if Truthy(clickUrl) then clickUrl else s.clickUrl))
            && (r.value.image == (if file.Some? && |url| > 0 then Some(url) else s.image))
            && r.value.(clickUrl := s.clickUrl, image := s.image, updatedAt := s.updatedAt) == s)
  {
  }

  /** The old image is destroyed only when a new one was uploaded and an
    * old one existed. */
  lemma EditDestroysOnlyReplaced(s: GridSpace, user: nat, role: string, file: Option<File>)
    ensures EditDestroys(s, user, role, file).Some? <==>
      EditCheck(s, user, role, file).Ok? && file.Some? && Truthy(s.image)
    ensures file.None? ==> EditDestroys(s, user, role, file).None?
  {
  }

  /** `editGridSpace`. */
  method EditGridSpace(db: Db, id: nat, user: nat, role: string, clickUrl: Option<string>,
                       files: Option<map<string, File>>, url: string, now: int)
    returns (r: Outcome<GridSpace>, destroyed: Option<string>)
    requires db.Valid()
    modifies db
    ensures db.Valid()
    ensures id !in old(db.spaces) ==> r == Fail(NotFound, "Grid space not found") && destroyed.None? && unchanged(db)
    ensures id in old(db.spaces) ==>
      var s := old(db.spaces)[id];
      r == EditSpace(s, user, role, clickUrl, FileOf(files), url, now)
      && destroyed == EditDestroys(s, user, role, FileOf(files))
      && (r.Ok? ==> db.spaces == old(db.spaces)[id := r.value])
      && (r.Err? ==> unchanged(db))
    ensures db.layouts == old(db.layouts) && db.biddings == old(db.biddings)
    ensures db.transactions == old(db.transactions)
  {
    destroyed := None;
    if id !in db.spaces {
      return Fail(NotFound, "Grid space not found"), None;
    }
    var s := db.spaces[id];
    var file := FileOf(files);
    var c := EditCheck(s, user, role, file);
    if c.Err? {
      return Err(c.error), None;
    }
    var imageUrl: Option<string> := None;
    if file.Some? {
      imageUrl := Some(url);
      if Truthy(s.image) {
        destroyed := Some(PublicId(s.image.value));
      }
    }
    if !Truthy(clickUrl) && !Truthy(imageUrl) {
      return Fail(BadRequest, "No update parameters provided"), destroyed;
    }
    var e := s;
    if Truthy(clickUrl) {
      e := e.(clickUrl := clickUrl);
    }
    if Truthy(imageUrl) {
      e := e.(image := imageUrl);
    }
    e := e.(updatedAt := now);
    db.SaveSpace(id, e, now);
    r := Ok(db.spaces[id]);
  }
}

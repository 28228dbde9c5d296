/**
 * The community ("sub") routes: creating a community, the ownership guard in
 * front of the media upload, the MIME allow-list of the upload step and the
 * image/banner replace workflow, wired in the order of the upload route.
 *
 * State: the communities table (keyed by exact name), the media store (the
 * set of file names under the image directory) and a ghost trace of the
 * effects each request performs, so that their order can be stated.
 */
module Subs {
  import opened Wrappers

  /** A stored media file name; the upload step names files with a random id, never empty. */
  type FileName = s: string | s != "" witness "f"

  /** The two media kinds a community carries. */
  datatype Kind = Image | Banner

  /** A community record as persisted. The URN columns are nullable. */
  datatype Sub = Sub(
    name: string,
    title: string,
    description: Option<string>,
    username: string,
    imageUrn: Option<string>,
    bannerUrn: Option<string>)

  datatype Body = Message(error: string) | SubJson(sub: Sub)

  datatype Response = Response(status: nat, body: Body)

  /** What the ownership guard hands on: the community for the next step, or a final response. */
  datatype Guard = Next(sub: Sub) | Stop(response: Response)

  /** What createSub's validation block throws (and logs) before answering 500. */
  datatype Thrown = FieldErrors(errors: map<string, string>) | TypeError

  datatype FilterResult = Accept | Reject(message: string)

  /** The file as the upload step sees it. */
  datatype Upload = Upload(mimetype: string)

  /** Observable effects, in the order a request performs them. */
  datatype Effect = Wrote(file: string) | Saved(name: string) | Unlinked(file: string)

  const NotOwner := Response(403, Message("Do not have an authorization."))
  const GuardFailure := Response(500, Message(" Error Occurred."))
  const Failure := Response(500, Message("Error Occurred."))
  const InvalidFile := Response(400, Message("Invalid file"))
  const InvalidType := Response(400, Message("Invalid type"))
  const NotAnImage := "Not an image."
  const AllowedMimeTypes: set<string> := {"image/jpeg", "image/png"}

  const NameEmpty := "Name cannot be empty."
  const TitleEmpty := "Title cannot be empty."
  const NameTaken := "Sub is already exist."

  // ---------------------------------------------------------------------------
  // Pure parts

  /** The upload step's file filter: JPEG and PNG pass, anything else is an error. */
  function FileFilter(mimetype: string): (r: FilterResult)
    ensures r.Accept? <==> mimetype in AllowedMimeTypes
    ensures r.Reject? ==> r.message == NotAnImage
  {
    if mimetype == "image/jpeg" || mimetype == "image/png" then Accept else Reject(NotAnImage)
  }

  /** JavaScript's `x || ''` on an optional string: a non-empty value is kept, anything else becomes ''. */
  function OrEmpty(o: Option<string>): (r: string)
    ensures r == "" <==> o.None? || o.value == ""
    ensures r != "" ==> o == Some(r)
  {
    if o.Some? then o.value else ""
  }

  /** The upload came with a file and the filter let it through. */
  predicate Accepted(upload: Option<Upload>)
  {
    upload.Some? && FileFilter(upload.value.mimetype).Accept?
  }

  /** The effects of the upload step: the file is written when one came. */
  function Written(upload: Option<Upload>, generated: FileName): seq<Effect>
  {
    if upload.Some? then [Wrote(generated)] else []
  }

  /** The `type` field of the upload form, read as a media kind. */
  function KindOf(assetType: Option<string>): (k: Option<Kind>)
    ensures k == Some(Image) <==> assetType == Some("image")
    ensures k == Some(Banner) <==> assetType == Some("banner")
    ensures k == None <==> assetType != Some("image") && assetType != Some("banner")
  {
    if assetType == Some("image") then Some(Image)
    else if assetType == Some("banner") then Some(Banner)
    else None
  }

  function Other(k: Kind): Kind
  {
    match k
    case Image => Banner
    case Banner => Image
  }

  /** The reference of kind `k` a community holds, '' when unset. */
  function Urn(s: Sub, k: Kind): string
  {
    match k
    case Image => OrEmpty(s.imageUrn)
    case Banner => OrEmpty(s.bannerUrn)
  }

  /** The community with its reference of kind `k` overwritten; nothing else changes. */
  function WithUrn(s: Sub, k: Kind, urn: string): (r: Sub)
    ensures Urn(r, k) == urn
    ensures Urn(r, Other(k)) == Urn(s, Other(k))
    ensures k == Image ==> r.imageUrn == Some(urn) && r.bannerUrn == s.bannerUrn
    ensures k == Banner ==> r.bannerUrn == Some(urn) && r.imageUrn == s.imageUrn
    ensures r.(imageUrn := s.imageUrn, bannerUrn := s.bannerUrn) == s
  {
    match k
    case Image => s.(imageUrn := Some(urn))
    case Banner => s.(bannerUrn := Some(urn))
  }

  /** ASCII lower-casing of one character. */
  function LowerChar(c: char): char
  {
    if 'A' <= c <= 'Z' then (c as int + 32) as char else c
  }

  /** Lower-casing of a name, as both sides of the uniqueness query apply it. */
  function Lower(s: string): (r: string)
    ensures |r| == |s|
  {
    if s == [] then [] else [LowerChar(s[0])] + Lower(s[1..])
  }

  lemma {:induction false} LowerIdempotent(s: string)
    ensures Lower(Lower(s)) == Lower(s)
  {
    if s != [] {
      LowerIdempotent(s[1..]);
      assert Lower(s)[1..] == Lower(s[1..]);
    }
  }

  /** A name without upper-case ASCII letters is its own lower-cased form. */
  lemma {:induction false} LowerKeepsLower(s: string)
    requires forall i :: 0 <= i < |s| ==> !('A' <= s[i] <= 'Z')
    ensures Lower(s) == s
  {
    if s != [] {
      LowerKeepsLower(s[1..]);
    }
  }

  /** Some existing community's name equals `name` up to case; an exact match is one. */
  predicate Taken(subs: map<string, Sub>, name: string)
    ensures name in subs ==> Taken(subs, name)
    ensures Taken(subs, name) ==> exists n :: n in subs && |n| == |name|
  {
    exists n | n in subs :: Lower(n) == Lower(name)
  }

  /** No two community names differ only in case. */
  ghost predicate CaseUnique(subs: map<string, Sub>)
  {
    forall a, b :: a in subs && b in subs && Lower(a) == Lower(b) ==> a == b
  }

  /** Both sides of the uniqueness query are lower-cased, so lower-casing the input first changes nothing. */
  lemma TakenIgnoresInputCase(subs: map<string, Sub>, name: string)
    ensures Taken(subs, Lower(name)) <==> Taken(subs, name)
  {
    LowerIdempotent(name);
  }

  /** class-validator's isEmpty: undefined, null or ''; exactly the values that `v || ''` turns into ''. */
  predicate IsEmpty(v: Option<string>)
    ensures IsEmpty(v) <==> OrEmpty(v) == ""
    ensures !IsEmpty(v) ==> v.Some? && |v.value| > 0
  {
    v.None? || v.value == ""
  }

  /** The caller owns the community named exactly `name`. */
  predicate Owns(subs: map<string, Sub>, name: string, caller: Option<string>)
  {
    name in subs && caller.Some? && subs[name].username == caller.value
  }

  /** Some community references `f` as its image or banner. */
  ghost predicate Referenced(subs: map<string, Sub>, f: string)
  {
    exists n, k :: n in subs && Urn(subs[n], k) == f
  }

  /**
   * The table and the store agree: every record sits under its own name, every
   * non-empty reference names a stored file, and no two references share a file.
   */
  ghost predicate Consistent(subs: map<string, Sub>, files: set<string>)
  {
    && (forall n :: n in subs ==> subs[n].name == n)
    && (forall n, k :: n in subs && Urn(subs[n], k) != "" ==> Urn(subs[n], k) in files)
    && (forall n1, k1, n2, k2 ::
          n1 in subs && n2 in subs && Urn(subs[n1], k1) != "" && Urn(subs[n1], k1) == Urn(subs[n2], k2)
          ==> n1 == n2 && k1 == k2)
  }

  /** The store after the old file of a replaced reference is unlinked (none when it was ''). */
  function DropOld(files: set<string>, oldUrn: string): (r: set<string>)
    ensures oldUrn == "" ==> r == files
    ensures oldUrn != "" ==> oldUrn !in r && files == r + (files * {oldUrn})
  {
    if oldUrn == "" then files else files - {oldUrn}
  }

  /** The table after the `k` reference of community `n` is set to `urn` and saved. */
  function Commit(subs: map<string, Sub>, n: string, k: Kind, urn: string): (r: map<string, Sub>)
    requires n in subs
    ensures r.Keys == subs.Keys
    ensures Urn(r[n], k) == urn && Urn(r[n], Other(k)) == Urn(subs[n], Other(k))
    ensures r[n].(imageUrn := subs[n].imageUrn, bannerUrn := subs[n].bannerUrn) == subs[n]
    ensures k == Image ==> r[n].imageUrn == Some(urn) && r[n].bannerUrn == subs[n].bannerUrn
    ensures k == Banner ==> r[n].bannerUrn == Some(urn) && r[n].imageUrn == subs[n].imageUrn
    ensures forall m :: m in subs && m != n ==> r[m] == subs[m]
  {
    subs[n := WithUrn(subs[n], k, urn)]
  }

  /** Replacing a reference by '' or by a stored, unreferenced file keeps the table and store consistent. */
  lemma ReplaceKeepsConsistent(subs: map<string, Sub>, files: set<string>, n: string, k: Kind, urn: string)
    requires Consistent(subs, files) && n in subs
    requires urn == "" || (urn in files && !Referenced(subs, urn))
    ensures Consistent(Commit(subs, n, k, urn), DropOld(files, Urn(subs[n], k)))
  {
  }

  /** Unlinking a file no community references keeps the table and store consistent. */
  lemma DropUnreferencedKeepsConsistent(subs: map<string, Sub>, files: set<string>, f: string)
    requires Consistent(subs, files) && !Referenced(subs, f)
    ensures Consistent(subs, files - {f})
  {
  }

  /**
   * Two successive replacements of one reference by fresh files f1 and then f2:
   * the record ends on f2, f2 is stored, and both f1 and the original file are gone.
   */
  lemma ReplaceTwice(subs: map<string, Sub>, files: set<string>, n: string, k: Kind, f1: FileName, f2: FileName)
    requires Consistent(subs, files) && n in subs
    requires f1 in files && !Referenced(subs, f1)
    requires f2 in files && !Referenced(subs, f2) && f1 != f2
    ensures var subs1, files1 := Commit(subs, n, k, f1), DropOld(files, Urn(subs[n], k));
            var subs2, files2 := Commit(subs1, n, k, f2), DropOld(files1, Urn(subs1[n], k));
            && Consistent(subs2, files2)
            && Urn(subs2[n], k) == f2 && f2 in files2
            && f1 !in files2
            && (Urn(subs[n], k) != "" ==> Urn(subs[n], k) !in files2)
  {
    var subs1, files1 := Commit(subs, n, k, f1), DropOld(files, Urn(subs[n], k));
    ReplaceKeepsConsistent(subs, files, n, k, f1);
    assert f2 in files1;
    assert !Referenced(subs1, f2);
    ReplaceKeepsConsistent(subs1, files1, n, k, f2);
  }

  /**
   * The exact-case guard and the case-insensitive uniqueness check disagree: a
   * name that differs from a stored one only in case is refused at creation,
   * yet the guard finds no community under it, whoever calls.
   */
  lemma CaseQuirk(subs: map<string, Sub>, n: string, m: string, caller: Option<string>)
    requires n in subs && m !in subs && Lower(m) == Lower(n)
    ensures Taken(subs, m) && !Owns(subs, m, caller)
  {
  }

  /** The disagreement occurs: 'Science' against a stored 'science'. */
  lemma CaseQuirkExample(s: Sub)
    requires s.name == "science"
    ensures var subs := map["science" := s];
            "Science" !in subs && Taken(subs, "Science") && !Owns(subs, "Science", Some(s.username))
  {
    LowerKeepsLower("science");
    LowerKeepsLower("cience");
    assert Lower("Science") == [LowerChar('S')] + Lower("cience");
  }

  // ---------------------------------------------------------------------------
  // Request handling

  class Server {
    /** The communities table, keyed by exact name. */
    var subs: map<string, Sub>
    /** The media store: names of the files in the image directory. */
    var files: set<string>
    /** Every effect performed so far, oldest first. */
    ghost var trace: seq<Effect>

    ghost predicate Valid()
      reads this
    {
      Consistent(subs, files) && CaseUnique(subs)
    }

    constructor ()
      ensures subs == map[] && files == {} && trace == []
      ensures Valid()
    {
      subs, files, trace := map[], {}, [];
    }

    /**
     * The ownership guard: the community named exactly `name` must exist and be
     * owned by the caller. An absent caller dereferences an undefined user,
     * which lands in the same 500 as a missing community.
     */
    method OwnSub(name: string, caller: Option<string>) returns (g: Guard)
      ensures g.Next? <==> Owns(subs, name, caller)
      ensures g.Next? ==> g.sub == subs[name]
      ensures g.Stop? && name in subs && caller.Some? ==> g.response == NotOwner
      ensures g.Stop? && (name !in subs || caller.None?) ==> g.response == GuardFailure
    {
      if name !in subs {
        return Stop(GuardFailure);
      }
      var sub := subs[name];
      if caller.None? {
        return Stop(GuardFailure);
      }
      if sub.username != caller.value {
        return Stop(NotOwner);
      }
      g := Next(sub);
    }

    /**
     * The validation block of createSub: builds the field-keyed errors object;
     * the name-conflict message overwrites the empty-name one; an absent name
     * throws a TypeError at the lower-casing before the conflict query runs.
     * Returns what is thrown, or None when validation passes.
     */
    method ValidateSub(name: Option<string>, title: Option<string>) returns (thrown: Option<Thrown>)
      ensures thrown.None? <==> !IsEmpty(name) && !IsEmpty(title) && !Taken(subs, name.value)
      ensures name.None? ==> thrown == Some(TypeError)
      ensures name.Some? && thrown.Some? ==>
                && thrown.value.FieldErrors?
                && thrown.value.errors.Keys <= {"name", "title"}
                && ("name" in thrown.value.errors <==> name.value == "" || Taken(subs, name.value))
                && ("name" in thrown.value.errors ==>
                      thrown.value.errors["name"] == if Taken(subs, name.value) then NameTaken else NameEmpty)
                && ("title" in thrown.value.errors <==> IsEmpty(title))
                && ("title" in thrown.value.errors ==> thrown.value.errors["title"] == TitleEmpty)
    {
      var errors: map<string, string> := map[];
      if IsEmpty(name) {
        errors := errors["name" := NameEmpty];
      }
      if IsEmpty(title) {
        errors := errors["title" := TitleEmpty];
      }
      if name.None? {
        return Some(TypeError);
      }
      var taken := exists n | n in subs :: Lower(n) == Lower(name.value);
      if taken {
        errors := errors["name" := NameTaken];
      }
      if |errors| > 0 {
        return Some(FieldErrors(errors));
      }
      thrown := None;
    }

    /**
     * createSub: any validation failure is logged and collapsed into a generic
     * 500 with nothing saved; otherwise a new community owned by the caller is
     * saved (`saveOk` says whether the database accepts it) and returned.
     */
    method CreateSub(name: Option<string>, title: Option<string>, description: Option<string>,
                     caller: string, saveOk: bool)
      returns (res: Response, logged: Option<Thrown>)
      modifies this
      ensures files == old(files)
      ensures logged.None? <==> !IsEmpty(name) && !IsEmpty(title) && !Taken(old(subs), name.value)
      ensures logged.Some? ==> res == Failure && subs == old(subs) && trace == old(trace)
      ensures logged.None? && !saveOk ==> res == Failure && subs == old(subs) && trace == old(trace)
      ensures logged.None? && saveOk ==>
                var s := Sub(name.value, title.value, description, caller, None, None);
                && name.value !in old(subs)
                && subs == old(subs)[name.value := s]
                && trace == old(trace) + [Saved(name.value)]
                && res == Response(200, SubJson(s))
      ensures old(Valid()) ==> Valid()
    {
      logged := ValidateSub(name, title);
      if logged.Some? {
        return Failure, logged;
      }
      var sub := Sub(name.value, title.value, description, caller, None, None);
      if !saveOk {
        return Failure, logged;
      }
      subs := subs[name.value := sub];
      trace := trace + [Saved(name.value)];
      res := Response(200, SubJson(sub));
    }

    /**
     * uploadSubImage, given the community the guard attached and the stored
     * upload (if any). An unknown `type` unlinks the upload and answers 400; a
     * known one overwrites that reference (with '' when no file came), saves,
     * and only then unlinks the previously referenced file when there was one.
     * Any thrown error (save failure, unlink of a missing file) answers 500.
     */
    method UploadSubImage(sub: Sub, assetType: Option<string>, file: Option<FileName>, saveOk: bool)
      returns (res: Response)
      modifies this
      ensures KindOf(assetType).None? && file.None? ==>
                res == InvalidFile && subs == old(subs) && files == old(files) && trace == old(trace)
      ensures KindOf(assetType).None? && file.Some? && file.value in old(files) ==>
                && res == InvalidType && subs == old(subs)
                && files == old(files) - {file.value}
                && trace == old(trace) + [Unlinked(file.value)]
      ensures KindOf(assetType).None? && file.Some? && file.value !in old(files) ==>
                res == Failure && subs == old(subs) && files == old(files) && trace == old(trace)
      ensures KindOf(assetType).Some? && !saveOk ==>
                res == Failure && subs == old(subs) && files == old(files) && trace == old(trace)
      ensures KindOf(assetType).Some? && saveOk ==>
                var k := KindOf(assetType).value;
                var oldUrn := Urn(sub, k);
                var updated := WithUrn(sub, k, OrEmpty(file));
                && subs == old(subs)[sub.name := updated]
                && (oldUrn == "" ==>
                      files == old(files) && trace == old(trace) + [Saved(sub.name)]
                      && res == Response(200, SubJson(updated)))
                && (oldUrn != "" && oldUrn in old(files) ==>
                      files == old(files) - {oldUrn} && trace == old(trace) + [Saved(sub.name), Unlinked(oldUrn)]
                      && res == Response(200, SubJson(updated)))
                && (oldUrn != "" && oldUrn !in old(files) ==>
                      files == old(files) && trace == old(trace) + [Saved(sub.name)] && res == Failure)
      ensures old(Valid()) && sub.name in old(subs) && old(subs)[sub.name] == sub
              && (file.Some? ==> file.value in old(files) && !Referenced(old(subs), file.value))
              ==> Valid() && (KindOf(assetType).Some? && saveOk ==> res.status == 200)
    {
      var kind := KindOf(assetType);
      if kind.None? {
        if file.None? {
          return InvalidFile;
        }
        if file.value !in files {
          return Failure;
        }
        ghost var before := subs;
        files := files - {file.value};
        trace := trace + [Unlinked(file.value)];
        if Consistent(before, old(files)) && !Referenced(before, file.value) {
          DropUnreferencedKeepsConsistent(before, old(files), file.value);
        }
        return InvalidType;
      }
      var k := kind.value;
      var oldUrn := Urn(sub, k);
      var updated := WithUrn(sub, k, OrEmpty(file));
      if !saveOk {
        return Failure;
      }
      ghost var before := subs;
      subs := subs[sub.name := updated];
      trace := trace + [Saved(sub.name)];
      if oldUrn != "" {
        if oldUrn !in files {
          return Failure;
        }
        files := files - {oldUrn};
        trace := trace + [Unlinked(oldUrn)];
      }
      res := Response(200, SubJson(updated));
      if Consistent(before, old(files)) && sub.name in before && before[sub.name] == sub
         && (file.Some? ==> file.value in old(files) && !Referenced(before, file.value)) {
        assert subs == Commit(before, sub.name, k, OrEmpty(file));
        assert files == DropOld(old(files), oldUrn);
        ReplaceKeepsConsistent(before, old(files), sub.name, k, OrEmpty(file));
      }
    }

    /**
     * Two successive uploads of a new image or banner by the owner, through the
     * whole route: both answer 200, the record ends on the second file, which
     * is stored, while the first file and the one referenced before are gone.
     */
    method UploadTwice(name: string, owner: string, assetType: Option<string>,
                       first: FileName, second: FileName)
      returns (r1: Response, r2: Response)
      requires Valid() && Owns(subs, name, Some(owner)) && KindOf(assetType).Some?
      requires first !in files && second !in files && first != second
      modifies this
      ensures Valid()
      ensures r1.status == 200 && r2.status == 200
      ensures var k := KindOf(assetType).value;
              && name in subs && Urn(subs[name], k) == second && second in files
              && first !in files
              && (Urn(old(subs)[name], k) != "" ==> Urn(old(subs)[name], k) !in files)
      ensures subs.Keys == old(subs.Keys)
      ensures var k := KindOf(assetType).value;
              && subs == old(subs)[name := WithUrn(old(subs)[name], k, second)]
              && files == DropOld(old(files), Urn(old(subs)[name], k)) + {second}
    {
      var png := Some(Upload("image/png"));
      ghost var k := KindOf(assetType).value;
      ghost var before := Urn(subs[name], k);
      r1 := UploadRoute(name, Some(owner), assetType, png, first, true);
      assert second !in files;
      assert Owns(subs, name, Some(owner));
      assert before != "" ==> before !in files;
      r2 := UploadRoute(name, Some(owner), assetType, png, second, true);
    }

    /**
     * The upload route in its declared order: ownership guard, then the upload
     * step (file filter, then writing the file under the generated name), then
     * uploadSubImage. A filter rejection reaches the framework's default error
     * handler, which answers 500 with the error's message.
     */
    /**
     * The disk-storage step of the upload middleware: an accepted file is
     * written to the store under the generated name, which the request then
     * carries on to the handler.
     */
    method StoreUpload(upload: Option<Upload>, generated: FileName) returns (stored: Option<FileName>)
      requires upload.None? || Accepted(upload)
      modifies this
      ensures stored == (if upload.Some? then Some(generated) else None)
      ensures subs == old(subs)
      ensures files == old(files) + (if upload.Some? then {generated} else {})
      ensures trace == old(trace) + Written(upload, generated)
      ensures old(Consistent(subs, files)) && generated !in old(files) ==>
                Consistent(subs, files) && (upload.Some? ==> !Referenced(subs, generated))
    {
      stored := None;
      if upload.Some? {
        files := files + {generated};
        trace := trace + [Wrote(generated)];
        stored := Some(generated);
      }
    }

    method UploadRoute(name: string, caller: Option<string>, assetType: Option<string>,
                       upload: Option<Upload>, generated: FileName, saveOk: bool)
      returns (res: Response)
      modifies this
      ensures !Owns(old(subs), name, caller) ==>
                subs == old(subs) && files == old(files) && trace == old(trace)
      ensures name in old(subs) && caller.Some? && !Owns(old(subs), name, caller) ==> res == NotOwner
      ensures name !in old(subs) || caller.None? ==> res == GuardFailure
      ensures Owns(old(subs), name, caller) && upload.Some? && FileFilter(upload.value.mimetype).Reject? ==>
                res == Response(500, Message(NotAnImage))
                && subs == old(subs) && files == old(files) && trace == old(trace)
      ensures files - old(files) <= {generated}
      ensures generated !in old(files) && generated in files ==>
                Owns(old(subs), name, caller) && upload.Some? && FileFilter(upload.value.mimetype).Accept?
      ensures old(Valid()) && generated !in old(files) ==> Valid()
      ensures old(Valid()) && generated !in old(files) && generated in files ==>
                Referenced(subs, generated) || !saveOk
      ensures old(Valid()) && generated !in old(files)
              && Owns(old(subs), name, caller) && upload.Some? && FileFilter(upload.value.mimetype).Accept?
              && KindOf(assetType).Some? && saveOk ==>
                var k := KindOf(assetType).value;
                var oldUrn := Urn(old(subs)[name], k);
                && res.status == 200
                && subs == old(subs)[name := WithUrn(old(subs)[name], k, generated)]
                && name in subs && Urn(subs[name], k) == generated && generated in files
                && (oldUrn != "" ==> oldUrn !in files)
                && trace == old(trace) + [Wrote(generated), Saved(name)] + (if oldUrn == "" then [] else [Unlinked(oldUrn)])
      ensures Owns(old(subs), name, caller) && upload.None? && KindOf(assetType).None? ==>
                res == InvalidFile && subs == old(subs) && files == old(files) && trace == old(trace)
      ensures Owns(old(subs), name, caller) && Accepted(upload) && KindOf(assetType).None? && generated !in old(files) ==>
                && res == InvalidType && subs == old(subs) && files == old(files)
                && trace == old(trace) + [Wrote(generated), Unlinked(generated)]
      ensures Owns(old(subs), name, caller) && (upload.None? || Accepted(upload)) && KindOf(assetType).Some? && !saveOk ==>
                && res == Failure && subs == old(subs)
                && files == old(files) + (if upload.Some? then {generated} else {})
                && trace == old(trace) + Written(upload, generated)
      ensures generated !in old(files)
              && Owns(old(subs), name, caller) && (upload.None? || Accepted(upload))
              && KindOf(assetType).Some? && saveOk ==>
                var s := old(subs)[name];
                var k := KindOf(assetType).value;
                var oldUrn := Urn(s, k);
                var updated := WithUrn(s, k, if upload.Some? then generated else "");
                var written := old(files) + (if upload.Some? then {generated} else {});
                && subs == old(subs)[s.name := updated]
                && (oldUrn == "" ==>
                      res == Response(200, SubJson(updated)) && files == written
                      && trace == old(trace) + Written(upload, generated) + [Saved(s.name)])
                && (oldUrn != "" && oldUrn in written ==>
                      res == Response(200, SubJson(updated)) && files == written - {oldUrn}
                      && trace == old(trace) + Written(upload, generated) + [Saved(s.name), Unlinked(oldUrn)])
                && (oldUrn != "" && oldUrn !in written ==>
                      res == Failure && files == written
                      && trace == old(trace) + Written(upload, generated) + [Saved(s.name)])
      ensures old(Valid()) && generated !in old(files)
              && Owns(old(subs), name, caller) && (upload.None? || Accepted(upload))
              && KindOf(assetType).Some? && saveOk ==>
                var k := KindOf(assetType).value;
                var oldUrn := Urn(old(subs)[name], k);
                var updated := WithUrn(old(subs)[name], k, if upload.Some? then generated else "");
                && res == Response(200, SubJson(updated))
                && subs == old(subs)[name := updated]
                && files == DropOld(old(files), oldUrn) + (if upload.Some? then {generated} else {})
                && trace == old(trace) + Written(upload, generated) + [Saved(name)]
                            + (if oldUrn == "" then [] else [Unlinked(oldUrn)])
    {
      var g := OwnSub(name, caller);
      if g.Stop? {
        return g.response;
      }
      if upload.Some? && FileFilter(upload.value.mimetype).Reject? {
        return Response(500, Message(FileFilter(upload.value.mimetype).message));
      }
      var stored := StoreUpload(upload, generated);
      ghost var table, store := subs, files;
      res := UploadSubImage(g.sub, assetType, stored, saveOk);
      if Consistent(table, store) && KindOf(assetType).Some? && saveOk && stored.Some? {
        assert g.sub.name == name;
        assert Urn(subs[name], KindOf(assetType).value) == generated;
        assert Referenced(subs, generated);
      }
    }
  }
}

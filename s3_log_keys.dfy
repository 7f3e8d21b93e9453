/** Object-key construction of the S3 compute-log manager: how a log key (a sequence of
    names ending in the file base) and an output stream become an S3 object key, which keys
    a deletion touches, when an upload is skipped, and the `s3://` display path. */
module S3LogKeys {
  import opened Wrappers
  import opened PathStrings

  /** The two captured output streams. */
  datatype ComputeIOType = Stdout | Stderr

  /** File extension per stream (`IO_TYPE_EXTENSION` of the local compute-log manager). */
  function Extension(io: ComputeIOType): string {
    match io
    case Stdout => "out"
    case Stderr => "err"
  }

  datatype KeyError =
    | EmptyLogKey            // `[*namespace, filebase] = log_key` on an empty log key
    | MissingLogKeyOrPrefix  // `delete_logs` given neither a log key nor a prefix

  /** `_clean_prefix`: drops the empty '/'-separated segments of the configured prefix. */
  function CleanPrefix(prefix: string): (cleaned: string)
    ensures NoEmptySegments(cleaned)
  {
    var kept := NonEmptyParts(Split(prefix));
    JoinNoEmptySegments(kept);
    Join(kept)
  }

  /** The segments of a cleaned prefix are exactly the non-empty segments of the original. */
  lemma CleanPrefixSegments(prefix: string)
    requires CleanPrefix(prefix) != ""
    ensures Split(CleanPrefix(prefix)) == NonEmptyParts(Split(prefix))
  {
    var kept := NonEmptyParts(Split(prefix));
    assert |kept| >= 1;
    assert AllSlashFree(kept) by {
      forall i | 0 <= i < |kept| ensures SlashFree(kept[i]) {
        var j :| 0 <= j < |Split(prefix)| && Split(prefix)[j] == kept[i];
      }
    }
    SplitJoin(kept);
  }

  /** Cleaning is idempotent. */
  lemma CleanPrefixIdempotent(prefix: string)
    ensures CleanPrefix(CleanPrefix(prefix)) == CleanPrefix(prefix)
  {
    var cleaned := CleanPrefix(prefix);
    if cleaned == "" {
      assert Split(cleaned) == [""];
    } else {
      CleanPrefixSegments(prefix);
      NonEmptyPartsOfNonEmpty(Split(cleaned));
    }
  }

  /** `filebase.ext`, with `.partial` appended for a partial upload. */
  function FileName(filebase: string, io: ComputeIOType, partial: bool): string {
    filebase + "." + Extension(io) + (if partial then ".partial" else "")
  }

  /** A file name starts with its base, then the stream's extension, then `.partial` for an
      upload in progress, and holds nothing else. */
  lemma FileNameLayout(filebase: string, io: ComputeIOType, partial: bool)
    ensures var name := FileName(filebase, io, partial);
            && |name| == |filebase| + 4 + (if partial then 8 else 0)
            && name[..|filebase|] == filebase
            && name[|filebase|..|filebase| + 4] == "." + Extension(io)
            && (partial ==> name[|filebase| + 4..] == ".partial")
  {
    var name := FileName(filebase, io, partial);
    assert name == filebase + ("." + Extension(io)) + (if partial then ".partial" else "");
  }

  /** `_s3_key`: `prefix/storage/<namespace...>/<filebase>.<ext>[.partial]`. */
  function S3Key(s3Prefix: string, logKey: seq<string>, io: ComputeIOType, partial: bool)
    : (r: Result<string, KeyError>)
    ensures r.Failure? <==> |logKey| == 0
    ensures r.Failure? ==> r.error == EmptyLogKey
    ensures r.Success? ==> s3Prefix + "/storage/" <= r.value
  {
    if |logKey| == 0 then Failure(EmptyLogKey)
    else
      var namespace, filebase := logKey[..|logKey| - 1], logKey[|logKey| - 1];
      var key := Join([s3Prefix, "storage"] + namespace + [FileName(filebase, io, partial)]);
      KeyLayout(s3Prefix, namespace, FileName(filebase, io, partial));
      Success(key)
  }

  lemma KeyLayout(s3Prefix: string, namespace: seq<string>, filename: string)
    ensures Join([s3Prefix, "storage"] + namespace + [filename])
         == s3Prefix + "/storage/" + Join(namespace + [filename])
  {
    var tail := namespace + [filename];
    assert [s3Prefix, "storage"] + namespace + [filename] == [s3Prefix] + ([ "storage"] + tail);
    JoinCons(s3Prefix, ["storage"] + tail);
    JoinCons("storage", tail);
  }

  /** A partial key is the complete key with `.partial` appended, and nothing else changes. */
  lemma PartialKeyAppendsSuffix(s3Prefix: string, logKey: seq<string>, io: ComputeIOType)
    requires |logKey| > 0
    ensures S3Key(s3Prefix, logKey, io, true).value
         == S3Key(s3Prefix, logKey, io, false).value + ".partial"
  {
    var init := [s3Prefix, "storage"] + logKey[..|logKey| - 1];
    var filebase := logKey[|logKey| - 1];
    assert FileName(filebase, io, true) == FileName(filebase, io, false) + ".partial";
    JoinExtendLast(init, FileName(filebase, io, false), ".partial");
  }

  /** With delimiter-free names, the key's segments are the prefix's segments, "storage",
      the namespace and the file name, so the key can be taken apart again. */
  lemma {:induction false} KeySegments(s3Prefix: string, logKey: seq<string>, io: ComputeIOType, partial: bool)
    requires |logKey| > 0 && AllSlashFree(logKey)
    ensures Split(S3Key(s3Prefix, logKey, io, partial).value)
         == Split(s3Prefix) + ["storage"] + logKey[..|logKey| - 1]
            + [FileName(logKey[|logKey| - 1], io, partial)]
  {
    var namespace, filename := logKey[..|logKey| - 1], FileName(logKey[|logKey| - 1], io, partial);
    var tail := namespace + [filename];
    KeyLayout(s3Prefix, namespace, filename);
    assert SlashFree(logKey[|logKey| - 1]);
    assert AllSlashFree(["storage"] + tail) by {
      forall i | 0 <= i < |["storage"] + tail| ensures SlashFree((["storage"] + tail)[i]) {
        if 0 < i < |logKey| {
          assert (["storage"] + tail)[i] == logKey[i - 1];
        }
      }
    }
    SplitJoin(["storage"] + tail);
    JoinCons("storage", tail);
    assert s3Prefix + "/storage/" + Join(tail) == s3Prefix + "/" + Join(["storage"] + tail);
    SplitAtSlash(s3Prefix, Join(["storage"] + tail));
    assert Split(s3Prefix) + (["storage"] + tail)
        == Split(s3Prefix) + ["storage"] + namespace + [filename];
  }

  lemma FileNameInjective(b1: string, io1: ComputeIOType, p1: bool, b2: string, io2: ComputeIOType, p2: bool)
    requires FileName(b1, io1, p1) == FileName(b2, io2, p2)
    ensures b1 == b2 && io1 == io2 && p1 == p2
  {
    var f := FileName(b1, io1, p1);
    assert f[|f| - 1] == (if p1 then 'l' else if io1 == Stdout then 't' else 'r');
    assert f[|f| - 1] == (if p2 then 'l' else if io2 == Stdout then 't' else 'r');
    assert p1 == p2;
    var extEnd := |f| - 1 - (if p1 then 8 else 0);
    assert f[extEnd] == (if io1 == Stdout then 't' else 'r');
    assert f[extEnd] == (if io2 == Stdout then 't' else 'r');
    assert |f| == |b1| + 4 + (if p1 then 8 else 0);
    assert |f| == |b2| + 4 + (if p2 then 8 else 0);
    assert b1 == f[..|b1|] == b2;
  }

  /** Distinct (log key, stream, partial) triples with delimiter-free names get distinct keys. */
  lemma S3KeyInjective(s3Prefix: string, k1: seq<string>, io1: ComputeIOType, p1: bool,
                       k2: seq<string>, io2: ComputeIOType, p2: bool)
    requires |k1| > 0 && AllSlashFree(k1) && |k2| > 0 && AllSlashFree(k2)
    requires S3Key(s3Prefix, k1, io1, p1) == S3Key(s3Prefix, k2, io2, p2)
    ensures k1 == k2 && io1 == io2 && p1 == p2
  {
    KeySegments(s3Prefix, k1, io1, p1);
    KeySegments(s3Prefix, k2, io2, p2);
    var head := Split(s3Prefix) + ["storage"];
    var t1 := k1[..|k1| - 1] + [FileName(k1[|k1| - 1], io1, p1)];
    var t2 := k2[..|k2| - 1] + [FileName(k2[|k2| - 1], io2, p2)];
    assert S3Key(s3Prefix, k1, io1, p1).value == S3Key(s3Prefix, k2, io2, p2).value;
    assert head + t1 == Split(s3Prefix) + ["storage"] + k1[..|k1| - 1] + [FileName(k1[|k1| - 1], io1, p1)];
    assert head + t2 == Split(s3Prefix) + ["storage"] + k2[..|k2| - 1] + [FileName(k2[|k2| - 1], io2, p2)];
    assert head + t1 == head + t2;
    assert t1 == (head + t1)[|head|..];
    assert t1 == t2;
    assert |k1| == |k2|;
    assert t1[|t1| - 1] == FileName(k1[|k1| - 1], io1, p1);
    assert t2[|t2| - 1] == FileName(k2[|k2| - 1], io2, p2);
    FileNameInjective(k1[|k1| - 1], io1, p1, k2[|k2| - 1], io2, p2);
    assert k1 == k1[..|k1| - 1] + [k1[|k1| - 1]];
    assert k2 == k2[..|k2| - 1] + [k2[|k2| - 1]];
    assert k1[..|k1| - 1] == t1[..|k1| - 1];
  }

  /** What `delete_logs` removes: four named keys, or every key under a listing prefix. */
  datatype Deletion = DeleteKeys(keys: seq<string>) | DeleteListed(listPrefix: string)

  /** Key selection of `delete_logs`. A `None` and an empty sequence are both falsy in the
      source, so both are the empty sequence here. */
  function DeleteSelection(s3Prefix: string, logKey: seq<string>, prefix: seq<string>)
    : (r: Result<Deletion, KeyError>)
    ensures r.Failure? <==> |logKey| == 0 && |prefix| == 0
    ensures r.Failure? ==> r.error == MissingLogKeyOrPrefix
    ensures |logKey| > 0 ==> r.Success? && r.value.DeleteKeys? && |r.value.keys| == 4
    ensures r.Success? && r.value.DeleteListed? ==>
              |logKey| == 0 && s3Prefix + "/storage/" <= r.value.listPrefix
              && r.value.listPrefix[|r.value.listPrefix| - 1] == '/'
  {
    if |logKey| > 0 then
      var keys := [S3Key(s3Prefix, logKey, Stdout, false).value,
                   S3Key(s3Prefix, logKey, Stderr, false).value,
                   S3Key(s3Prefix, logKey, Stdout, true).value,
                   S3Key(s3Prefix, logKey, Stderr, true).value];
      Success(DeleteKeys(keys))
    else if |prefix| > 0 then
      // the trailing "" adds a final '/', so that ["a"] does not match ["apple"]
      var listPrefix := Join([s3Prefix, "storage"] + prefix + [""]);
      ListPrefixLayout(s3Prefix, prefix);
      Success(DeleteListed(listPrefix))
    else Failure(MissingLogKeyOrPrefix)
  }

  lemma ListPrefixLayout(s3Prefix: string, prefix: seq<string>)
    requires |prefix| > 0
    ensures Join([s3Prefix, "storage"] + prefix + [""])
         == s3Prefix + "/storage/" + Join(prefix) + "/"
  {
    KeyLayout(s3Prefix, prefix, "");
    JoinSnoc(prefix, "");
  }

  /** A log-key deletion removes the complete and the partial object of both streams. */
  lemma DeletionCoversBothStreams(s3Prefix: string, logKey: seq<string>, prefix: seq<string>,
                                  io: ComputeIOType, partial: bool)
    requires |logKey| > 0
    ensures S3Key(s3Prefix, logKey, io, partial).value in DeleteSelection(s3Prefix, logKey, prefix).value.keys
  {
    var keys := DeleteSelection(s3Prefix, logKey, prefix).value.keys;
    match io {
      case Stdout => assert S3Key(s3Prefix, logKey, io, partial).value == keys[if partial then 2 else 0];
      case Stderr => assert S3Key(s3Prefix, logKey, io, partial).value == keys[if partial then 3 else 1];
    }
  }

  /** With delimiter-free names, the four keys a log-key deletion removes are distinct. */
  lemma DeletedKeysDistinct(s3Prefix: string, logKey: seq<string>)
    requires |logKey| > 0 && AllSlashFree(logKey)
    ensures var keys := DeleteSelection(s3Prefix, logKey, []).value.keys;
            forall i, j :: 0 <= i < j < |keys| ==> keys[i] != keys[j]
  {
    var keys := DeleteSelection(s3Prefix, logKey, []).value.keys;
    forall i, j | 0 <= i < j < |keys| ensures keys[i] != keys[j] {
      if keys[i] == keys[j] {
        var ios := [Stdout, Stderr, Stdout, Stderr];
        var ps := [false, false, true, true];
        assert keys[i] == S3Key(s3Prefix, logKey, ios[i], ps[i]).value;
        assert keys[j] == S3Key(s3Prefix, logKey, ios[j], ps[j]).value;
        S3KeyInjective(s3Prefix, logKey, ios[i], ps[i], logKey, ios[j], ps[j]);
      }
    }
  }

  /** The first delimiter decides a prefix match between two '/'-joined strings. */
  lemma SlashPrefix(p: string, x: string, q: string, y: string)
    requires SlashFree(p) && SlashFree(q)
    ensures p + "/" + x <= q + "/" + y <==> p == q && x <= y
  {
    var s, t := p + "/" + x, q + "/" + y;
    if s <= t {
      assert t[|p|] == s[|p|] == '/';
      assert |q| <= |p|;
      assert s[|q|] == t[|q|] == '/';
      assert |p| == |q|;
      assert p == s[..|p|] == t[..|q|] == q;
      assert x == s[|p| + 1..] && y == t[|q| + 1..];
    }
    if p == q && x <= y {
      assert t == q + "/" + x + y[|x|..];
    }
  }

  lemma NoSlashPrefixOfSlashFree(p: string, x: string, q: string)
    requires SlashFree(q)
    ensures !(p + "/" + x <= q)
  {
    var s := p + "/" + x;
    if |s| <= |q| {
      assert s[|p|] == '/' && q[|p|] != '/';
    }
  }

  /** `Join(P) + "/"` is a string prefix of `Join(Q)` exactly when P is a proper prefix of Q
      (for delimiter-free names). */
  lemma {:induction false} JoinSlashPrefix(ps: seq<string>, qs: seq<string>)
    requires |ps| > 0 && |qs| > 0 && AllSlashFree(ps) && AllSlashFree(qs)
    ensures Join(ps) + "/" <= Join(qs) <==> |ps| < |qs| && ps == qs[..|ps|]
  {
    assert SlashFree(ps[0]) && SlashFree(qs[0]);
    var lhs := Join(ps) + "/";
    if |qs| == 1 {
      if |ps| == 1 {
        assert lhs == ps[0] + "/" + "";
      } else {
        assert lhs == ps[0] + "/" + (Join(ps[1..]) + "/");
      }
      NoSlashPrefixOfSlashFree(ps[0], if |ps| == 1 then "" else Join(ps[1..]) + "/", qs[0]);
    } else {
      var rq := Join(qs[1..]);
      if |ps| == 1 {
        assert lhs == ps[0] + "/" + "";
        SlashPrefix(ps[0], "", qs[0], rq);
      } else {
        var rp := Join(ps[1..]) + "/";
        assert lhs == ps[0] + "/" + rp;
        SlashPrefix(ps[0], rp, qs[0], rq);
        JoinSlashPrefix(ps[1..], qs[1..]);
        assert ps == [ps[0]] + ps[1..];
        if |ps| <= |qs| {
          assert qs[..|ps|] == [qs[0]] + qs[1..][..|ps| - 1];
        }
      }
    }
  }

  /** The listing prefix of a prefix deletion selects the keys of exactly the log keys that
      extend the given prefix by at least one more name: ["a"] selects ["a", "x"] but not
      ["apple", "x"], nor ["a"] itself. */
  lemma ListPrefixSelectsExactlyExtensions(s3Prefix: string, prefix: seq<string>,
                                           logKey: seq<string>, io: ComputeIOType, partial: bool)
    requires |prefix| > 0 && AllSlashFree(prefix)
    requires |logKey| > 0 && AllSlashFree(logKey)
    ensures DeleteSelection(s3Prefix, [], prefix).value.listPrefix <= S3Key(s3Prefix, logKey, io, partial).value
            <==> |prefix| < |logKey| && prefix == logKey[..|prefix|]
  {
    var namespace, filename := logKey[..|logKey| - 1], FileName(logKey[|logKey| - 1], io, partial);
    var qs := namespace + [filename];
    var head := s3Prefix + "/storage/";
    KeyLayout(s3Prefix, namespace, filename);
    ListPrefixLayout(s3Prefix, prefix);
    assert DeleteSelection(s3Prefix, [], prefix).value.listPrefix == head + (Join(prefix) + "/");
    assert S3Key(s3Prefix, logKey, io, partial).value == head + Join(qs);
    assert head + (Join(prefix) + "/") <= head + Join(qs) <==> Join(prefix) + "/" <= Join(qs) by {
      var l, r := Join(prefix) + "/", Join(qs);
      if head + l <= head + r {
        assert l == (head + l)[|head|..];
        assert r[..|l|] == (head + r)[|head|..|head| + |l|];
      }
    }
    assert SlashFree(logKey[|logKey| - 1]);
    assert AllSlashFree(qs) by {
      forall i | 0 <= i < |qs| ensures SlashFree(qs[i]) {
        if i < |namespace| { assert qs[i] == logKey[i]; }
      }
    }
    JoinSlashPrefix(prefix, qs);
    if |prefix| < |qs| && prefix == qs[..|prefix|] {
      if |prefix| == |namespace| {
        assert prefix == namespace;
      }
      assert prefix == logKey[..|prefix|];
    }
    if |prefix| < |logKey| && prefix == logKey[..|prefix|] {
      assert qs[..|prefix|] == logKey[..|prefix|];
    }
  }

  /** `upload_interval`: a configured interval of None or 0 means "upload only on completion". */
  function UploadInterval(configured: Option<int>): (r: Option<int>)
    ensures r.None? <==> configured.None? || configured.value == 0
    ensures r.Some? ==> r == configured
  {
    if configured.Some? && configured.value != 0 then configured else None
  }

  /** The decision of `upload_to_cloud_storage`: `None` when the upload is skipped, otherwise the
      key the local file is uploaded to. */
  function UploadTarget(s3Prefix: string, skipEmptyFiles: bool, logKey: seq<string>,
                        io: ComputeIOType, partial: bool, fileSize: nat)
    : (r: Result<Option<string>, KeyError>)
    ensures r == Success(None) <==> (skipEmptyFiles || partial) && fileSize == 0
    ensures r.Success? && r.value.Some? ==> S3Key(s3Prefix, logKey, io, partial) == Success(r.value.value)
    ensures r.Failure? ==> |logKey| == 0
  {
    if (skipEmptyFiles || partial) && fileSize == 0 then Success(None)
    else
      match S3Key(s3Prefix, logKey, io, partial)
      case Success(key) => Success(Some(key))
      case Failure(e) => Failure(e)
  }

  /** A non-empty file is always uploaded, and an empty complete file is uploaded unless
      `skip_empty_files` is set. */
  lemma UploadHappens(s3Prefix: string, skipEmptyFiles: bool, logKey: seq<string>,
                      io: ComputeIOType, partial: bool, fileSize: nat)
    requires |logKey| > 0
    requires fileSize > 0 || (!skipEmptyFiles && !partial)
    ensures UploadTarget(s3Prefix, skipEmptyFiles, logKey, io, partial, fileSize).Success?
    ensures UploadTarget(s3Prefix, skipEmptyFiles, logKey, io, partial, fileSize).value.Some?
  {
  }

  /** `display_path_for_type`: None until the capture completes, then `s3://bucket/key`. */
  function DisplayPath(bucket: string, s3Prefix: string, logKey: seq<string>,
                       io: ComputeIOType, captureComplete: bool)
    : (r: Result<Option<string>, KeyError>)
    ensures r == Success(None) <==> !captureComplete
    ensures r.Failure? <==> captureComplete && |logKey| == 0
    ensures r.Success? && r.value.Some? ==>
              var path := r.value.value;
              "s3://" + bucket + "/" <= path
              && path[|"s3://" + bucket + "/"|..] == S3Key(s3Prefix, logKey, io, false).value
  {
    if !captureComplete then Success(None)
    else
      match S3Key(s3Prefix, logKey, io, false)
      case Success(key) =>
        var path := "s3://" + bucket + "/" + key;
        assert path[|"s3://" + bucket + "/"|..] == key;
        Success(Some(path))
      case Failure(e) => Failure(e)
  }

  /** The display path names the complete object, never its `.partial` counterpart. */
  lemma DisplayPathNotPartial(bucket: string, s3Prefix: string, logKey: seq<string>, io: ComputeIOType)
    requires |logKey| > 0
    ensures var path := DisplayPath(bucket, s3Prefix, logKey, io, true).value.value;
            |path| >= 4 && path[|path| - 4..] == "." + Extension(io)
  {
    var namespace, filename := logKey[..|logKey| - 1], FileName(logKey[|logKey| - 1], io, false);
    KeyLayout(s3Prefix, namespace, filename);
    JoinExtendLast(namespace, logKey[|logKey| - 1], "." + Extension(io));
    assert filename == logKey[|logKey| - 1] + ("." + Extension(io));
  }
}

/**
 * The object-key naming contract shared by the intake and the worker: the raw key the
 * intake writes, the owner name and the processed key the worker derives from it, and
 * the public URL of the processed object.
 */
module Keys {
  import opened Results
  import opened Strings

  const UploadPrefix: string := "uploads/"
  const ProcessedPrefix: string := "processed/"
  const UrlScheme: string := "https://"
  const UrlHost: string := ".s3.amazonaws.com"

  /** The worker's guard: only keys in the `uploads/` folder are processed. */
  predicate IsUploadKey(key: string)
    ensures IsUploadKey(key) ==> '/' in key
  {
    // The `/` that ends the prefix, at position 7, witnesses the postcondition.
    assert StartsWith(key, UploadPrefix) ==> key[7] == key[..|UploadPrefix|][7];
    StartsWith(key, UploadPrefix)
  }

  /**
   * The key the intake stores an upload under: the folder `uploads/`, the owner name,
   * an underscore and the uploaded file's name. Every such key passes the worker's guard.
   */
  function RawKey(name: string, filename: string): (key: string)
    ensures IsUploadKey(key)
    ensures key[|UploadPrefix|..] == name + "_" + filename
  {
    UploadPrefix + name + "_" + filename
  }

  /**
   * `key.split('/')[1].split('_')[0]`: the owner name the worker reads from a key.
   * There is no second `/`-segment when the key has no `/`, and then the indexing
   * fails (`None`). Otherwise the owner is that segment up to its first `_`, or the
   * whole segment when it has none.
   */
  function OwnerName(key: string): (owner: Option<string>)
    ensures owner.None? <==> '/' !in key
    ensures owner.Some? ==> owner.value == Before(Before(After(key, '/'), '/'), '_')
    ensures owner.Some? ==> '/' !in owner.value && '_' !in owner.value
  {
    var segments := Split(key, '/');
    if |segments| < 2 then None
    else
      var owner := Split(segments[1], '_')[0];
      assert '/' !in segments[1];
      assert owner == segments[1][..IndexOf(segments[1], '_')];
      Some(owner)
  }

  /**
   * `key.replace('uploads/', 'processed/')`. A key with no `uploads/` is left alone; a key
   * that starts with `uploads/` and has no further occurrence keeps its suffix behind
   * `processed/`.
   */
  function ProcessedKey(key: string): (processed: string)
    ensures !Contains(key, UploadPrefix) ==> processed == key
    ensures IsUploadKey(key) ==> StartsWith(processed, ProcessedPrefix) && processed != key
    ensures IsUploadKey(key) && !Contains(key[|UploadPrefix|..], UploadPrefix) ==>
              processed == ProcessedPrefix + key[|UploadPrefix|..]
  {
    ReplaceAllUnchanged(key, UploadPrefix, ProcessedPrefix);
    if IsUploadKey(key) then
      var rest := key[|UploadPrefix|..];
      assert key == UploadPrefix + rest;
      ReplaceAllLeadingMatch(UploadPrefix, ProcessedPrefix, rest);
      ReplaceAllUnchanged(rest, UploadPrefix, ProcessedPrefix);
      var processed := ReplaceAll(key, UploadPrefix, ProcessedPrefix);
      assert processed[0] != key[0];
      processed
    else
      ReplaceAll(key, UploadPrefix, ProcessedPrefix)
  }

  /** The public address of an object in a bucket. */
  function PublicUrl(bucket: string, key: string): string
  {
    UrlScheme + bucket + UrlHost + "/" + key
  }

  /**
   * The owner read back from an intake key is the submitted name up to its first `_`,
   * whatever the file name, as long as the name has no `/`.
   */
  lemma OwnerOfRawKey(name: string, filename: string)
    requires '/' !in name
    ensures OwnerName(RawKey(name, filename)) == Some(Before(name, '_'))
  {
    RawKeyFirstSegment(name, filename);
    SecondSegmentOfObjectName(name, filename);
    OwnerOfSegment(name, Before(filename, '/'));
  }

  /** The first `/` of an intake key is the one that ends `uploads/`. */
  lemma RawKeyFirstSegment(name: string, filename: string)
    ensures '/' in RawKey(name, filename)
    ensures After(RawKey(name, filename), '/') == name + "_" + filename
  {
    var key := RawKey(name, filename);
    assert key[..|UploadPrefix|] == UploadPrefix;
    assert key[7] == '/';
    assert forall j :: 0 <= j < 7 ==> key[j] != '/';
    assert IndexOf(key, '/') == 7;
  }

  /** The `/`-segment that starts with an owner name without `/` runs to the file name's first `/`. */
  lemma SecondSegmentOfObjectName(name: string, filename: string)
    requires '/' !in name
    ensures Before(name + "_" + filename, '/') == name + "_" + Before(filename, '/')
  {
    var head := name + "_";
    assert '/' !in head;
    IndexOfAppend(head, filename, '/');
    TakePastAppend(head, filename, IndexOf(filename, '/'));
  }

  /** Cutting `name_tail` at its first `_` gives `name` cut at its first `_`. */
  lemma OwnerOfSegment(name: string, tail: string)
    ensures Before(name + "_" + tail, '_') == Before(name, '_')
  {
    var rest := "_" + tail;
    Regroup(name, "_", tail, "");
    assert name + "_" + tail == name + rest;
    IndexOfAppend(name, rest, '_');
    if '_' in name {
      TakeOfAppend(name, rest, IndexOf(name, '_'));
    } else {
      assert IndexOf(rest, '_') == 0;
      TakeOfAppend(name, rest, |name|);
    }
  }

  /**
   * The round trip between the two components: the worker recovers exactly the submitted
   * name from the intake's key if and only if the name contains neither `_` nor `/`.
   */
  lemma OwnerRoundTrip(name: string, filename: string)
    ensures OwnerName(RawKey(name, filename)) == Some(name) <==> '_' !in name && '/' !in name
  {
    if '/' !in name {
      OwnerOfRawKey(name, filename);
      assert Before(name, '_') == name <==> '_' !in name;
    }
  }

  /**
   * The processed key of an intake key is `processed/` followed by the same object name,
   * provided `uploads/` does not occur again in that name.
   */
  lemma ProcessedKeyOfRawKey(name: string, filename: string)
    requires !Contains(name + "_" + filename, UploadPrefix)
    ensures ProcessedKey(RawKey(name, filename)) == ProcessedPrefix + name + "_" + filename
  {
  }

  /**
   * `str.replace` rewrites every occurrence of `uploads/`, not only the leading one: a key
   * with a second `uploads/` after an owner part (here one without the letter `u`) gets
   * `processed/` in both places.
   */
  lemma ProcessedKeyRewritesEveryOccurrence(owner: string, rest: string)
    requires 'u' !in owner && !Contains(rest, UploadPrefix)
    ensures ProcessedKey(UploadPrefix + owner + UploadPrefix + rest)
         == ProcessedPrefix + owner + ProcessedPrefix + rest
  {
    assert UploadPrefix[0] == 'u';
    ReplaceAllTwoOccurrences(UploadPrefix, ProcessedPrefix, owner, rest);
  }

  /**
   * Among upload keys with no second `uploads/`, the processed key identifies the raw key:
   * there each processed object has exactly one triggering raw object.
   */
  lemma ProcessedKeyInjective(k1: string, k2: string)
    requires IsUploadKey(k1) && !Contains(k1[|UploadPrefix|..], UploadPrefix)
    requires IsUploadKey(k2) && !Contains(k2[|UploadPrefix|..], UploadPrefix)
    requires ProcessedKey(k1) == ProcessedKey(k2)
    ensures k1 == k2
  {
    var r1, r2 := k1[|UploadPrefix|..], k2[|UploadPrefix|..];
    DropOfAppend(ProcessedPrefix, r1);
    DropOfAppend(ProcessedPrefix, r2);
    assert r1 == r2;
    assert k1 == UploadPrefix + r1;
    assert k2 == UploadPrefix + r2;
  }

  /**
   * Because every `uploads/` is rewritten, two different intake keys can share one
   * processed key: the same name with the file names `uploads/<f>` and `processed/<f>`
   * (name and `f` without `u`). The second run overwrites the first run's processed copy
   * and both records carry the same URL.
   */
  lemma IntakeKeysCollide(name: string, f: string)
    requires 'u' !in name && 'u' !in f
    ensures RawKey(name, UploadPrefix + f) != RawKey(name, ProcessedPrefix + f)
    ensures ProcessedKey(RawKey(name, UploadPrefix + f))
         == ProcessedKey(RawKey(name, ProcessedPrefix + f))
  {
    var owner := name + "_";
    assert 'u' !in owner;
    var k1 := RawKey(name, UploadPrefix + f);
    var k2 := RawKey(name, ProcessedPrefix + f);
    Regroup(UploadPrefix, name, "_", UploadPrefix + f);
    Regroup(UploadPrefix, owner, UploadPrefix, f);
    assert k1 == UploadPrefix + owner + UploadPrefix + f;
    NoFirstCharNoOccurrence(f, UploadPrefix);
    ProcessedKeyRewritesEveryOccurrence(owner, f);
    var rest := owner + (ProcessedPrefix + f);
    Regroup(UploadPrefix, name, "_", ProcessedPrefix + f);
    assert k2 == UploadPrefix + rest;
    assert k2[|UploadPrefix|..] == rest;
    NoFirstCharNoOccurrence(rest, UploadPrefix);
    Regroup(ProcessedPrefix, owner, ProcessedPrefix, f);
    assert k1[|UploadPrefix| + |owner|] != k2[|UploadPrefix| + |owner|];
  }

  /**
   * No `uploads/` survives in a processed key, whatever the key: every occurrence is
   * rewritten, and `processed/` cannot form a new one with the text around it.
   */
  lemma ProcessedKeyLeavesNoUploadPrefix(key: string)
    ensures !Contains(ProcessedKey(key), UploadPrefix)
  {
    ReplacementCannotRecreate();
    ReplaceAllLeavesNone(key, UploadPrefix, ProcessedPrefix);
  }

  /**
   * `processed/` has no `u`, is longer than `uploads/`, and cannot continue any proper
   * suffix of `uploads/` (only `ploads/` starts with `p`, and `pr` is not `pl`).
   */
  lemma ReplacementCannotRecreate()
    ensures |UploadPrefix| <= |ProcessedPrefix| && UploadPrefix[0] !in ProcessedPrefix
    ensures forall d :: 0 < d < |UploadPrefix| ==> !OverlapsAt(UploadPrefix, ProcessedPrefix, d)
  {
    forall d | 0 < d < |UploadPrefix| ensures !OverlapsAt(UploadPrefix, ProcessedPrefix, d) {
      if d == 1 {
        assert UploadPrefix[1..][1] != ProcessedPrefix[..7][1];
      } else {
        assert UploadPrefix[d..][0] != ProcessedPrefix[..|UploadPrefix| - d][0];
      }
    }
  }

  /** A name without `/` cannot contain `uploads/`. */
  lemma NoSlashNoUploadPrefix(s: string)
    requires '/' !in s
    ensures !Contains(s, UploadPrefix)
  {
    forall i: nat | i <= |s| ensures !OccursAt(s, UploadPrefix, i) {
      if i + |UploadPrefix| <= |s| {
        assert s[i..i + |UploadPrefix|][7] == s[i + 7];
      }
    }
  }

  /**
   * A public URL names one object: for bucket names without `/` (as the object store
   * requires), equal URLs come from the same bucket and the same key.
   */
  lemma PublicUrlIdentifiesObject(b1: string, k1: string, b2: string, k2: string)
    requires '/' !in b1 && '/' !in b2
    requires PublicUrl(b1, k1) == PublicUrl(b2, k2)
    ensures b1 == b2 && k1 == k2
  {
    HostPart(b1, k1);
    HostPart(b2, k2);
    var u := PublicUrl(b1, k1);
    assert b1 + UrlHost == b2 + UrlHost;
    assert b1 == (b1 + UrlHost)[..|b1|];
    assert b2 == (b2 + UrlHost)[..|b2|];
    assert u[|UrlScheme + b1 + UrlHost + "/"|..] == k1;
    assert u[|UrlScheme + b2 + UrlHost + "/"|..] == k2;
  }

  /** The host part of a public URL: everything between the scheme and the next `/`. */
  lemma HostPart(b: string, k: string)
    requires '/' !in b
    ensures Before(PublicUrl(b, k)[|UrlScheme|..], '/') == b + UrlHost
  {
    var host := b + UrlHost;
    NoSlashInHost();
    Regroup(UrlScheme, b, UrlHost, "/" + k);
    assert PublicUrl(b, k) == UrlScheme + (host + ("/" + k));
    DropOfAppend(UrlScheme, host + ("/" + k));
    assert host + ("/" + k) == host + ['/'] + k;
    BeforeSeparator(host, k, '/');
  }

  /** Helper: the host suffix of a public URL contains no `/`. */
  lemma NoSlashInHost()
    ensures '/' !in UrlHost
  {
  }
}

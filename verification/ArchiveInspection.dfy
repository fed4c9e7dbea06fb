/**
 * The size limits an EPUB archive must meet before it is read (crates/epub/src/lib.rs, `inspect`).
 * Opening entries, the check of an entry's path and the reading of the encryption manifest are taken
 * as given answers.
 */
module ArchiveInspection {
  import opened Bounded
  import opened Wrappers
  import Text

  datatype Entry = Entry(name: string, readable: bool, safePath: bool, encrypted: bool, size: U64, compressed: U64)

  datatype Limits = Limits(archiveBytes: U64, entries: U64, entryBytes: U64, expandedBytes: U64, ratio: U64)

  datatype ImportError =
    | ArchiveTooLarge
    | TooManyEntries
    | Zip
    | UnsafeEntry
    | ZipEncryption
    | ExpandedContentTooLarge
    | SuspiciousCompression

  datatype Inspection = Inspection(entryCount: nat, compressed: U64, expanded: U64, hasManifest: bool, drm: bool)

  // ---------- what acceptance means ----------

  predicate IsManifest(entry: Entry) {
    Text.Lower(entry.name) == "meta-inf/encryption.xml"
  }

  /** The manifest is recognized by its name, in whatever case it is written. */
  lemma ManifestIgnoresCase(entry: Entry)
    ensures IsManifest(entry) <==> Text.SameUpToCase(entry.name, "META-INF/encryption.xml")
  {
    Text.LowerIgnoresCase(entry.name, "META-INF/encryption.xml");
    LowerManifest();
  }

  lemma LowerManifest()
    ensures Text.Lower("META-INF/encryption.xml") == "meta-inf/encryption.xml"
  {
  }

  /** Nothing is wrong with the entry taken alone. */
  predicate Acceptable(entry: Entry, limits: Limits) {
    && entry.readable
    && entry.safePath
    && !entry.encrypted
    && entry.size <= limits.entryBytes
    && (entry.compressed > 0 ==> entry.size / entry.compressed <= limits.ratio)
  }

  /** The exact sum of the expanded sizes. */
  function Expanded(entries: seq<Entry>): nat {
    if entries == [] then 0 else Expanded(entries[..|entries| - 1]) + entries[|entries| - 1].size
  }

  function Compressed(entries: seq<Entry>): nat {
    if entries == [] then 0 else Compressed(entries[..|entries| - 1]) + entries[|entries| - 1].compressed
  }

  // ---------- which offence is reported ----------

  /** What is wrong with an entry that follows `before` bytes of expanded content. */
  function Offence(before: nat, entry: Entry, limits: Limits): Option<ImportError> {
    if !entry.readable then Some(Zip)
    else if !entry.safePath then Some(UnsafeEntry)
    else if entry.encrypted then Some(ZipEncryption)
    else if entry.size > limits.entryBytes then Some(UnsafeEntry)
    else if before + entry.size > limits.expandedBytes then Some(ExpandedContentTooLarge)
    else if entry.compressed > 0 && entry.size / entry.compressed > limits.ratio then Some(SuspiciousCompression)
    else None
  }

  /** The first offence in archive order. */
  function FirstOffence(entries: seq<Entry>, limits: Limits): Option<ImportError> {
    if entries == [] then None
    else
      var earlier := entries[..|entries| - 1];
      match FirstOffence(earlier, limits)
      case Some(error) => Some(error)
      case None => Offence(Expanded(earlier), entries[|entries| - 1], limits)
  }

  method Inspect(archiveBytes: U64, entries: seq<Entry>, manifest: Result<bool, ImportError>, limits: Limits)
    returns (result: Result<Inspection, ImportError>)
    ensures archiveBytes > limits.archiveBytes ==> result == Err(ArchiveTooLarge)
    ensures archiveBytes <= limits.archiveBytes && |entries| > limits.entries ==> result == Err(TooManyEntries)
    ensures archiveBytes <= limits.archiveBytes && |entries| <= limits.entries ==>
              FirstOffence(entries, limits).Some? ==>
                result == Err(FirstOffence(entries, limits).value)
    ensures result.Err? && archiveBytes <= limits.archiveBytes && |entries| <= limits.entries
              && FirstOffence(entries, limits).None? ==>
              manifest == Err(result.error)
    ensures result.Ok? <==>
              && archiveBytes <= limits.archiveBytes
              && |entries| <= limits.entries
              && FirstOffence(entries, limits).None?
              && ((exists i :: 0 <= i < |entries| && IsManifest(entries[i])) ==> manifest.Ok?)
    ensures result.Ok? ==>
              && result.value.entryCount == |entries|
              && result.value.expanded == Expanded(entries)
              && result.value.compressed == Min(Compressed(entries), U64_MAX)
              && (result.value.hasManifest <==> exists i :: 0 <= i < |entries| && IsManifest(entries[i]))
              && result.value.drm == (result.value.hasManifest && manifest == Ok(true))
  {
    if archiveBytes > limits.archiveBytes {
      return Err(ArchiveTooLarge);
    }
    if |entries| > limits.entries {
      return Err(TooManyEntries);
    }
    var expanded: U64, compressed: U64, hasManifest := 0, 0, false;
    for index := 0 to |entries|
      invariant FirstOffence(entries[..index], limits).None?
      invariant expanded == Expanded(entries[..index])
      invariant compressed == Min(Compressed(entries[..index]), U64_MAX)
      invariant hasManifest <==> exists i :: 0 <= i < index && IsManifest(entries[i])
    {
      var entry := entries[index];
      assert entries[..index + 1][..index] == entries[..index];
      var offence := Offence(expanded, entry, limits);
      if offence.Some? {
        OffencePersists(entries, index + 1, limits);
      }
      if !entry.readable {
        return Err(Zip);
      }
      if !entry.safePath {
        return Err(UnsafeEntry);
      }
      if entry.encrypted {
        return Err(ZipEncryption);
      }
      if entry.size > limits.entryBytes {
        return Err(UnsafeEntry);
      }
      if expanded + entry.size > U64_MAX {
        return Err(ExpandedContentTooLarge);
      }
      expanded := expanded + entry.size;
      compressed := SaturatingAddU64(compressed, entry.compressed);
      if expanded > limits.expandedBytes {
        return Err(ExpandedContentTooLarge);
      }
      if entry.compressed > 0 && entry.size / Max(entry.compressed, 1) > limits.ratio {
        return Err(SuspiciousCompression);
      }
      hasManifest := hasManifest || IsManifest(entry);
    }
    assert entries[..|entries|] == entries;
    var drm := false;
    if hasManifest {
      if manifest.Err? {
        return Err(manifest.error);
      }
      drm := manifest.value;
    }
    return Ok(Inspection(|entries|, compressed, expanded, hasManifest, drm));
  }

  lemma {:induction false} OffencePersists(entries: seq<Entry>, k: nat, limits: Limits)
    requires k <= |entries|
    requires FirstOffence(entries[..k], limits).Some?
    ensures FirstOffence(entries, limits) == FirstOffence(entries[..k], limits)
    decreases |entries|
  {
    if k == |entries| {
      assert entries[..k] == entries;
    } else {
      var earlier := entries[..|entries| - 1];
      assert earlier[..k] == entries[..k];
      OffencePersists(earlier, k, limits);
    }
  }

  // ---------- acceptance depends on the entries, not on their order ----------

  /** Stopping at the first offence accepts exactly the archives whose entries are all acceptable and
      whose exact total is within the limit; the running 64-bit sum never decides otherwise. */
  lemma {:induction false} AcceptedIffWithinLimits(entries: seq<Entry>, limits: Limits)
    ensures FirstOffence(entries, limits).None?
       <==> (forall i :: 0 <= i < |entries| ==> Acceptable(entries[i], limits))
            && Expanded(entries) <= limits.expandedBytes
  {
    if entries == [] {
    } else {
      var earlier := entries[..|entries| - 1];
      AcceptedIffWithinLimits(earlier, limits);
      assert entries == earlier + [entries[|entries| - 1]];
      assert forall i :: 0 <= i < |earlier| ==> earlier[i] == entries[i];
      if FirstOffence(earlier, limits).Some? {
        assert FirstOffence(entries, limits).Some?;
      }
    }
  }

  lemma {:induction false} ExpandedRemove(entries: seq<Entry>, k: nat)
    requires k < |entries|
    ensures Expanded(entries) == Expanded(entries[..k] + entries[k + 1..]) + entries[k].size
    decreases |entries|
  {
    if k == |entries| - 1 {
      assert entries[..k] + entries[k + 1..] == entries[..k];
    } else {
      var earlier := entries[..|entries| - 1];
      ExpandedRemove(earlier, k);
      var rest := entries[..k] + entries[k + 1..];
      assert rest[..|rest| - 1] == earlier[..k] + earlier[k + 1..];
    }
  }

  lemma RemoveOne(a: seq<Entry>, b: seq<Entry>, k: nat)
    requires a != [] && multiset(a) == multiset(b)
    requires k < |b| && b[k] == a[|a| - 1]
    ensures multiset(a[..|a| - 1]) == multiset(b[..k] + b[k + 1..])
  {
    assert a == a[..|a| - 1] + [a[|a| - 1]];
    assert b == b[..k] + [b[k]] + b[k + 1..];
    var rest := b[..k] + b[k + 1..];
    assert multiset(b) == multiset(b[..k]) + multiset{b[k]} + multiset(b[k + 1..]);
    assert multiset(rest) == multiset(b[..k]) + multiset(b[k + 1..]);
    assert multiset(a) == multiset(a[..|a| - 1]) + multiset{b[k]};
    assert multiset(a) - multiset{b[k]} == multiset(a[..|a| - 1]);
    assert multiset(b) - multiset{b[k]} == multiset(rest);
  }

  lemma {:induction false} ExpandedIsOrderless(a: seq<Entry>, b: seq<Entry>)
    requires multiset(a) == multiset(b)
    ensures Expanded(a) == Expanded(b)
    decreases |a|
  {
    if a == [] {
      assert |multiset(b)| == 0;
    } else {
      assert a[|a| - 1] in multiset(b);
      var k :| 0 <= k < |b| && b[k] == a[|a| - 1];
      RemoveOne(a, b, k);
      ExpandedIsOrderless(a[..|a| - 1], b[..k] + b[k + 1..]);
      ExpandedRemove(b, k);
    }
  }

  lemma AcceptableInAnyOrder(a: seq<Entry>, b: seq<Entry>, limits: Limits)
    requires multiset(a) == multiset(b)
    requires forall i :: 0 <= i < |a| ==> Acceptable(a[i], limits)
    ensures forall i :: 0 <= i < |b| ==> Acceptable(b[i], limits)
  {
    forall i | 0 <= i < |b|
      ensures Acceptable(b[i], limits)
    {
      assert b[i] in multiset(b);
      assert b[i] in a;
    }
  }

  /** Reordering the central directory cannot turn a refused archive into an accepted one. */
  lemma {:induction false} AcceptanceIsOrderless(a: seq<Entry>, b: seq<Entry>, limits: Limits)
    requires multiset(a) == multiset(b)
    requires FirstOffence(a, limits).None?
    ensures FirstOffence(b, limits).None?
  {
    AcceptedIffWithinLimits(a, limits);
    AcceptedIffWithinLimits(b, limits);
    ExpandedIsOrderless(a, b);
    AcceptableInAnyOrder(a, b, limits);
  }

  // ---------- the per-entry ratio bounds the whole archive ----------

  /** The entries the ratio applies to. */
  function Packed(entries: seq<Entry>): seq<Entry> {
    if entries == [] then []
    else
      Packed(entries[..|entries| - 1])
      + (if entries[|entries| - 1].compressed > 0 then [entries[|entries| - 1]] else [])
  }

  lemma QuotientBound(size: nat, compressed: nat, ratio: nat)
    requires compressed > 0 && size / compressed <= ratio
    ensures size + 1 <= (ratio + 1) * compressed
  {
    assert size < (size / compressed + 1) * compressed;
    assert (size / compressed + 1) * compressed <= (ratio + 1) * compressed;
  }

  lemma Distribute(k: int, a: int, b: int)
    ensures k * (a + b) == k * a + k * b
  {
  }

  /** An accepted archive expands its compressed bytes by less than one more than the ratio: content
      beyond that comes only from entries that claim no compressed bytes at all. */
  lemma {:induction false} RatioBoundsTheArchive(entries: seq<Entry>, limits: Limits)
    requires forall i :: 0 <= i < |entries| ==> Acceptable(entries[i], limits)
    ensures Expanded(Packed(entries)) + |Packed(entries)| <= (limits.ratio + 1) * Compressed(entries)
  {
    if entries == [] {
    } else {
      var earlier, last := entries[..|entries| - 1], entries[|entries| - 1];
      RatioBoundsTheArchive(earlier, limits);
      Distribute(limits.ratio + 1, Compressed(earlier), last.compressed);
      PackedStep(entries);
      if last.compressed > 0 {
        assert Acceptable(last, limits);
        QuotientBound(last.size, last.compressed, limits.ratio);
      }
    }
  }

  lemma PackedStep(entries: seq<Entry>)
    requires entries != []
    ensures var earlier, last := entries[..|entries| - 1], entries[|entries| - 1];
            && Compressed(entries) == Compressed(earlier) + last.compressed
            && (last.compressed > 0 ==>
                  && |Packed(entries)| == |Packed(earlier)| + 1
                  && Expanded(Packed(entries)) == Expanded(Packed(earlier)) + last.size)
            && (last.compressed == 0 ==> Packed(entries) == Packed(earlier))
  {
    var earlier, last := entries[..|entries| - 1], entries[|entries| - 1];
    if last.compressed > 0 {
      assert Packed(entries) == Packed(earlier) + [last];
      assert Packed(entries)[..|Packed(entries)| - 1] == Packed(earlier);
    }
  }
}

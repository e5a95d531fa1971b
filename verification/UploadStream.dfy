// Streaming reception of one upload: format chosen from a buffered prefix, text
// validated across chunk boundaries, size cap and disk floor checked per write,
// and the pledge ledger restored on every exit.
module UploadStream {
  import opened Common
  import opened Utf8

  const PDF_MAGIC: seq<Byte> := [0x25, 0x50, 0x44, 0x46, 0x2D]

  datatype Format = Pdf | Md

  datatype Error = InvalidType | TooLarge | DiskFloor

  datatype Upload = Accepted(content: seq<Byte>, size: nat, fmt: Format) | Rejected(error: Error)

  // ---------- What the service promises about the bytes alone ----------

  predicate DisallowedControl(cp: int) {
    cp !in {0x09, 0x0A, 0x0D} && (0 <= cp <= 0x1F || cp == 0x7F || 0x80 <= cp <= 0x9F)
  }

  predicate CleanText(text: seq<int>) {
    forall i :: 0 <= i < |text| ==> !DisallowedControl(text[i])
  }

  predicate StartsWithPdf(bs: seq<Byte>) {
    PDF_MAGIC <= bs
  }

  // Well-formed UTF-8 with no disallowed control character.
  ghost predicate IsMarkdown(bs: seq<Byte>) {
    exists text :: AllScalar(text) && bs == EncodeAll(text) && CleanText(text)
  }

  ghost predicate ContentOk(bs: seq<Byte>) {
    bs != [] && (StartsWithPdf(bs) || IsMarkdown(bs))
  }

  function FormatOf(bs: seq<Byte>): Format {
    if StartsWithPdf(bs) then Pdf else Md
  }

  // The same judgment in the decoder's terms, for a text still arriving.
  predicate CleanSoFar(bs: seq<Byte>) {
    Run([], bs).Ok? && CleanText(Run([], bs).text)
  }

  lemma IsMarkdownIsDecoded(bs: seq<Byte>)
    ensures IsMarkdown(bs) <==> CleanSoFar(bs) && Run([], bs).pending == []
  {
    if CleanSoFar(bs) && Run([], bs).pending == [] {
      DecodeIffEncoded(bs, Run([], bs).text);
    }
    if IsMarkdown(bs) {
      var text :| AllScalar(text) && bs == EncodeAll(text) && CleanText(text);
      DecodeIffEncoded(bs, text);
    }
  }

  // A bad prefix cannot be repaired by what follows it.
  lemma CleanSoFarOfAppend(a: seq<Byte>, b: seq<Byte>)
    ensures CleanSoFar(a + b) <==>
            CleanSoFar(a) && Run(Run([], a).pending, b).Ok? && CleanText(Run(Run([], a).pending, b).text)
    ensures CleanSoFar(a + b) ==> Run([], a + b).pending == Run(Run([], a).pending, b).pending
  {
    RunAppend([], a, b);
    if Run([], a).Ok? && Run(Run([], a).pending, b).Ok? {
      var t, u := Run([], a).text, Run(Run([], a).pending, b).text;
      assert forall i :: 0 <= i < |u| ==> (t + u)[|t| + i] == u[i];
      assert forall i :: 0 <= i < |t| ==> (t + u)[i] == t[i];
    }
  }

  lemma PdfPrefix(a: seq<Byte>, b: seq<Byte>)
    requires |PDF_MAGIC| <= |a|
    ensures StartsWithPdf(a + b) <==> StartsWithPdf(a)
  {
    assert (a + b)[..|PDF_MAGIC|] == a[..|PDF_MAGIC|];
  }

  // The magic bytes spell "%PDF-".
  lemma MagicSpellsPdf(i: nat)
    requires i < 5
    ensures |PDF_MAGIC| == 5 && PDF_MAGIC[i] == "%PDF-"[i] as int
  {
  }

  // A text may hold tab, line feed, carriage return and everything that is no control.
  lemma AllowedIff(cp: int)
    requires IsScalar(cp)
    ensures !DisallowedControl(cp) <==>
            (cp == '\t' as int || cp == '\n' as int || cp == '\r' as int || 0x20 <= cp < 0x7F || 0xA0 <= cp)
  {
  }

  method FirstDisallowedControlChar(text: seq<int>) returns (r: Option<int>)
    ensures r == None <==> CleanText(text)
    ensures r.Some? ==> exists i :: 0 <= i < |text| && text[i] == r.value && DisallowedControl(r.value)
                                 && CleanText(text[..i])
  {
    for i := 0 to |text|
      invariant CleanText(text[..i])
    {
      if text[i] !in {0x09, 0x0A, 0x0D} {
        if 0 <= text[i] <= 0x1F || text[i] == 0x7F || 0x80 <= text[i] <= 0x9F {
          return Some(text[i]);
        }
      }
      assert text[..i + 1] == text[..i] + [text[i]];
    }
    assert text[..|text|] == text;
    r := None;
  }

  // ---------- The pledge ledger ----------

  // Room left for a write once every other upload's outstanding pledge is honoured.
  predicate HasHeadroom(free: int, aboutToWrite: nat, reservedByOthers: int, floorBytes: int) {
    floorBytes <= free - aboutToWrite - reservedByOthers
  }

  class PledgeLedger {
    var reservedBytes: int

    constructor ()
      ensures reservedBytes == 0
    {
      reservedBytes := 0;
    }

    method ReserveUploadBudget(amount: nat)
      modifies this
      ensures reservedBytes == old(reservedBytes) + amount
    {
      reservedBytes := reservedBytes + amount;
    }

    method ReleaseUploadBudget(amount: nat)
      modifies this
      ensures reservedBytes == if old(reservedBytes) < amount then 0 else old(reservedBytes) - amount
    {
      reservedBytes := if reservedBytes - amount < 0 then 0 else reservedBytes - amount;
    }

    method AssertDiskHeadroom(free: int, aboutToWrite: nat, floorBytes: int, ownReserved: int) returns (ok: bool)
      ensures ok <==> HasHeadroom(free, aboutToWrite, reservedBytes - ownReserved, floorBytes)
      ensures ok <==> floorBytes + aboutToWrite + (reservedBytes - ownReserved) <= free
    {
      var reservedByOthers := reservedBytes - ownReserved;
      ok := !(free - aboutToWrite - reservedByOthers < floorBytes);
    }
  }

  // ---------- One upload in progress ----------

  class UploadSession {
    const maxBytes: nat
    const floorBytes: int
    const freeAt: nat -> int    // free space reported at the i-th headroom check
    const ledger: PledgeLedger
    const decoder: IncrementalDecoder
    ghost const others: nat     // pledged by other uploads when this one began

    var prefix: seq<Byte>
    var fmt: Option<Format>
    var file: Option<seq<Byte>> // the temp file, once opened
    var hashed: seq<Byte>       // bytes fed to the hash so far
    var total: nat
    var reserved: nat
    var checks: nat

    ghost predicate Pledged()
      reads this, ledger
    {
      ledger.reservedBytes == others + reserved
    }

    // `seen` is everything received so far.
    ghost predicate Valid(seen: seq<Byte>)
      reads this, ledger, decoder
    {
      && decoder.Valid()
      && Pledged()
      && match fmt
         case None =>
           && |prefix| < |PDF_MAGIC| && seen == prefix && decoder.pending == []
           && file == None && hashed == [] && total == 0 && reserved == 0
         case Some(f) =>
           && |PDF_MAGIC| <= |seen| && f == FormatOf(seen)
           && file == Some(seen) && hashed == seen && total == |seen| <= maxBytes && reserved == maxBytes - total
           && (f == Md ==> CleanSoFar(seen) && decoder.pending == Run([], seen).pending)
    }

    // Enough free space at every check for a whole file beside the others' pledges.
    ghost predicate Roomy() {
      forall i: nat :: HasHeadroom(freeAt(i), maxBytes, others, floorBytes)
    }

    constructor (ledger: PledgeLedger, maxBytes: nat, floorBytes: int, freeAt: nat -> int)
      requires 0 <= ledger.reservedBytes
      ensures this.ledger == ledger && this.maxBytes == maxBytes && this.floorBytes == floorBytes
      ensures this.freeAt == freeAt && others == ledger.reservedBytes && fresh(decoder)
      ensures Valid([])
    {
      this.ledger, this.maxBytes, this.floorBytes, this.freeAt := ledger, maxBytes, floorBytes, freeAt;
      others := ledger.reservedBytes;
      decoder := new IncrementalDecoder();
      prefix, fmt, file, hashed := [], None, None, [];
      total, reserved, checks := 0, 0, 0;
    }

    // One streamed write: size cap, then disk floor, then the bytes, then the release.
    method WriteChunk(data: seq<Byte>) returns (err: Option<Error>)
      requires file.Some? && Pledged() && reserved == maxBytes - total
      modifies this`file, this`hashed, this`total, this`reserved, this`checks, ledger
      ensures Pledged() && file.Some?
      ensures err == if maxBytes < old(total) + |data| then Some(TooLarge)
                     else if HasHeadroom(freeAt(old(checks)), |data|, others, floorBytes) then None
                     else Some(DiskFloor)
      ensures checks == if err == Some(TooLarge) then old(checks) else old(checks) + 1
      ensures err == None ==>
                && file == Some(old(file).value + data) && hashed == old(hashed) + data
                && total == old(total) + |data| && reserved == old(reserved) - |data|
      ensures err != None ==>
                file == old(file) && hashed == old(hashed) && total == old(total) && reserved == old(reserved)
    {
      var newTotal := total + |data|;
      if maxBytes < newTotal { return Some(TooLarge); }
      var ok := ledger.AssertDiskHeadroom(freeAt(checks), |data|, floorBytes, reserved);
      checks := checks + 1;
      if !ok { return Some(DiskFloor); }
      hashed := hashed + data;
      file := Some(file.value + data);
      ledger.ReleaseUploadBudget(|data|);
      total, reserved := newTotal, reserved - |data|;
      err := None;
    }

    method ValidateAndWrite(data: seq<Byte>, final: bool) returns (err: Option<Error>)
      requires file.Some? && fmt.Some? && Pledged() && decoder.Valid() && reserved == maxBytes - total
      modifies this`file, this`hashed, this`total, this`reserved, this`checks, ledger, decoder
      ensures Pledged() && decoder.Valid()
      ensures var d := Run(old(decoder.pending), data);
              var bad := fmt == Some(Md) &&
                         (d.Invalid? || (final && d.pending != []) || !CleanText(d.text));
              && (err == Some(InvalidType) <==> bad)
              && (err == Some(TooLarge) <==> !bad && maxBytes < old(total) + |data|)
              && (err == Some(DiskFloor) <==>
                    (!bad && old(total) + |data| <= maxBytes
                     && !HasHeadroom(freeAt(old(checks)), |data|, others, floorBytes)))
              && (err == Some(DiskFloor) ==> !Roomy())
              && (err == None ==>
                    && file == Some(old(file).value + data) && hashed == old(hashed) + data
                    && total == old(total) + |data| && reserved == old(reserved) - |data|
                    && (fmt == Some(Md) ==> decoder.pending == d.pending))
    {
      if fmt == Some(Md) {
        var text := decoder.Decode(data, final);
        if text == None { return Some(InvalidType); }
        var bad := FirstDisallowedControlChar(text.value);
        if bad != None { return Some(InvalidType); }
      }
      ghost var check := checks;
      err := WriteChunk(data);
      assert err == Some(DiskFloor) ==> !HasHeadroom(freeAt(check), maxBytes, others, floorBytes);
    }

    // Commits to a format and writes the buffered prefix as the first bytes.
    method Begin(f: Format, final: bool) returns (err: Option<Error>)
      requires fmt == None && file == None && hashed == [] && total == 0 && reserved == 0 && Pledged()
      requires decoder.Valid() && decoder.pending == []
      modifies this`fmt, this`file, this`hashed, this`total, this`reserved, this`checks, ledger, decoder
      ensures Pledged() && decoder.Valid() && fmt == Some(f)
      ensures var d := Run([], prefix);
              var bad := f == Md && (d.Invalid? || (final && d.pending != []) || !CleanText(d.text));
              && (err == Some(InvalidType) <==> bad)
              && (err == Some(TooLarge) <==> !bad && maxBytes < |prefix|)
              && (err == Some(DiskFloor) ==> !Roomy())
              && (err == None ==>
                    && file == Some(prefix) && hashed == prefix
                    && total == |prefix| && reserved == maxBytes - |prefix|
                    && (f == Md ==> decoder.pending == d.pending))
    {
      fmt := Some(f);
      file := Some([]);
      ledger.ReserveUploadBudget(maxBytes);
      reserved := maxBytes;
      err := ValidateAndWrite(prefix, final);
      assert [] + prefix == prefix;
    }

    // One iteration of the receive loop.
    method Chunk(chunk: seq<Byte>, ghost seen: seq<Byte>) returns (err: Option<Error>)
      requires Valid(seen)
      modifies this, ledger, decoder
      ensures Pledged()
      ensures err == None ==> Valid(seen + chunk)
      ensures err == Some(InvalidType) ==> !StartsWithPdf(seen + chunk) && !CleanSoFar(seen + chunk)
      ensures err == Some(InvalidType) ==> |PDF_MAGIC| <= |seen + chunk|
      ensures err == Some(TooLarge) ==> maxBytes < |seen + chunk|
      ensures err == Some(DiskFloor) ==> !Roomy()
    {
      if chunk == [] {
        assert seen + chunk == seen;
        return None;
      }
      if fmt == None {
        prefix := prefix + chunk;
        if |prefix| < |PDF_MAGIC| { return None; }
        var f := if prefix[..|PDF_MAGIC|] == PDF_MAGIC then Pdf else Md;
        err := Begin(f, false);
      } else {
        CleanSoFarOfAppend(seen, chunk);
        PdfPrefix(seen, chunk);
        err := ValidateAndWrite(chunk, false);
      }
    }

    // End of stream: a short or still-open text is flushed, an empty upload refused.
    method Finish(ghost seen: seq<Byte>) returns (err: Option<Error>)
      requires Valid(seen)
      modifies this, ledger, decoder
      ensures Pledged()
      ensures err == None ==> ContentOk(seen) && Complete(seen)
      ensures err == Some(InvalidType) ==> !ContentOk(seen)
      ensures err == Some(TooLarge) ==> maxBytes < |seen|
      ensures err == Some(DiskFloor) ==> !Roomy()
    {
      IsMarkdownIsDecoded(seen);
      err := None;
      if fmt == None {
        if |prefix| == 0 { return Some(InvalidType); }
        err := Begin(Md, true);
      } else if fmt == Some(Md) {
        CleanSoFarOfAppend(seen, []);
        assert seen + [] == seen;
        err := ValidateAndWrite([], true);
      }
    }

    // The finished upload: everything received is on disk, hashed and counted.
    ghost predicate Complete(seen: seq<Byte>)
      reads this, ledger
    {
      && Pledged() && fmt == Some(FormatOf(seen))
      && file == Some(seen) && hashed == seen && total == |seen| <= maxBytes
    }

    method ReceiveAttachmentUpload(chunks: seq<seq<Byte>>) returns (r: Upload)
      requires Valid([])
      modifies this, ledger, decoder
      // Acceptance and everything recorded depend on the concatenation only.
      ensures Roomy() ==> (r.Accepted? <==> ContentOk(Flatten(chunks)) && |Flatten(chunks)| <= maxBytes)
      ensures r.Accepted? ==>
                && ContentOk(Flatten(chunks)) && |Flatten(chunks)| <= maxBytes
                && r == Accepted(Flatten(chunks), |Flatten(chunks)|, FormatOf(Flatten(chunks)))
                && file == Some(Flatten(chunks)) && hashed == Flatten(chunks)
      ensures r == Rejected(InvalidType) ==> !ContentOk(Flatten(chunks))
      ensures r == Rejected(TooLarge) ==> maxBytes < |Flatten(chunks)|
      // No pledge outlives the upload, and a rejected one leaves no file.
      ensures ledger.reservedBytes == others
      ensures r.Rejected? ==> file == None
    {
      var err: Option<Error> := None;
      var i := 0;
      while i < |chunks| && err == None
        invariant 0 <= i <= |chunks| && Pledged()
        invariant err == None ==> Valid(Flatten(chunks[..i]))
        invariant err == Some(InvalidType) ==> !ContentOk(Flatten(chunks))
        invariant err == Some(TooLarge) ==> maxBytes < |Flatten(chunks)|
        invariant err == Some(DiskFloor) ==> !Roomy()
      {
        ghost var seen := Flatten(chunks[..i]);
        FlattenPrefixSnoc(chunks, i);
        FlattenSplit(chunks, i + 1);
        err := Chunk(chunks[i], seen);
        if err == Some(InvalidType) {
          BadPrefix(Flatten(chunks[..i + 1]), Flatten(chunks[i + 1..]));
        }
        i := i + 1;
      }
      if err == None {
        assert chunks[..i] == chunks;
        err := Finish(Flatten(chunks));
      }
      if err != None {
        assert err.value.InvalidType? || err.value.TooLarge? || err.value.DiskFloor?;
        file := None;
        r := Rejected(err.value);
      } else {
        r := Accepted(hashed, total, fmt.value);
      }
      if reserved != 0 {
        ledger.ReleaseUploadBudget(reserved);
      }
    }
  }

  lemma {:induction false} FlattenSplit<T>(parts: seq<seq<T>>, k: nat)
    requires k <= |parts|
    ensures Flatten(parts) == Flatten(parts[..k]) + Flatten(parts[k..])
  {
    if k == 0 {
      assert parts[0..] == parts;
    } else {
      FlattenSplit(parts[1..], k - 1);
      assert Flatten(parts[..k]) == parts[0] + Flatten(parts[..k][1..]);
      assert parts[..k][1..] == parts[1..][..k - 1] && parts[1..][k - 1..] == parts[k..];
    }
  }

  lemma BadPrefix(a: seq<Byte>, b: seq<Byte>)
    requires |PDF_MAGIC| <= |a| && !StartsWithPdf(a) && !CleanSoFar(a)
    ensures !ContentOk(a + b)
  {
    PdfPrefix(a, b);
    CleanSoFarOfAppend(a, b);
    IsMarkdownIsDecoded(a + b);
  }
}

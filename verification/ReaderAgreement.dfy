/** Two readers of one archive: the streaming bundle reader (scripts/generate-bundle-sbom.py) and the
    seeking header scan (scripts/oci-archive.py). */
module ReaderAgreement {
  import opened Text
  import opened Ustar
  import opened TarHeaders
  import opened ChartReader
  import opened BundleReader
  import opened OciScan

  /** What the streaming bundle reader accepts, the scan accepts, stopping at the same headers. */
  lemma BundleIsScanned(utf8: Bytes -> bool, b: Bytes, n: Names, m: Manifests, ms: seq<File>, k: nat)
    requires BundleAccepted(h => BundleHeader(h, utf8), b, n, m) == Some(ms) && k <= |ms|
    ensures Turns(b, k) == At(Offset(ms, k), 0) && Turns(b, |ms| + 2) == Accept
  {
    ReadersAreStrict(utf8);
    ScanFollowsReader(h => BundleHeader(h, utf8), b, ms, k);
  }
}

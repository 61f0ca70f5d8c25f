/**
 * `config::ReadTLSConfigFile` of src/config/config_tls.cpp: loading the
 * private key and the certificate chain named by two configured paths into
 * the process-wide strings `g_private_key_content` and
 * `g_certificate_chain_content`.
 *
 * The command-line flags and `pType_IsServer()` become inputs. The file
 * system is a map from each path the process can open and read to the
 * bytes of that file; a path that is not in the map cannot be read.
 */
module TlsConfig {

  type Byte = bv8
  type FileSystem = map<string, seq<Byte>>

  /** `kBufferSize`: the most bytes one read may bring in, 256 KiB. */
  const BufferSize: nat := 256 * 1024

  /** What `pType_IsServer()` reports. */
  datatype Role = Server | Client

  function Min(a: int, b: int): (m: int)
  {
    if a <= b then a else b
  }

  /**
   * `std::string::resize`: the first `n` characters are kept, and a string
   * that grows is padded with NUL characters.
   */
  function Resize(s: seq<Byte>, n: nat): (r: seq<Byte>)
    ensures |r| == n
    ensures forall i :: 0 <= i < Min(|s|, n) ==> r[i] == s[i]
    ensures forall i :: |s| <= i < n ==> r[i] == 0
    decreases n - |s|
  {
    if n <= |s| then s[..n] else Resize(s + [0], n)
  }

  /** The count `ReadFileToBuffer` returns: -1 when the file cannot be read, else as many bytes as fit. */
  function ReadCount(fs: FileSystem, path: string, capacity: nat): (ret: int)
    ensures ret <= capacity
    ensures ret > 0 ==> path in fs && ret <= |fs[path]|
    ensures path in fs ==> ret == Min(|fs[path]|, capacity)
    ensures path !in fs ==> ret <= 0
  {
    if path in fs then Min(|fs[path]|, capacity) else -1
  }

  datatype ReadResult = ReadResult(ret: int, buffer: seq<Byte>)

  /**
   * `ReadFileToBuffer(path, buffer)`: the returned count, and the buffer
   * after the call, whose first `count` bytes are the first bytes of the file.
   * This function stands in for the file-system primitive, over the
   * file-system map.
   */
  function ReadFileToBuffer(fs: FileSystem, path: string, buffer: seq<Byte>): (r: ReadResult)
    ensures r.ret == ReadCount(fs, path, |buffer|)
    ensures |r.buffer| == |buffer|
    ensures r.ret > 0 ==> r.buffer[..r.ret] == fs[path][..r.ret]
    ensures r.ret <= 0 ==> r.buffer == buffer
  {
    var count := ReadCount(fs, path, |buffer|);
    if count <= 0 then ReadResult(count, buffer) else ReadResult(count, fs[path][..count] + buffer[count..])
  }

  /** A file as the loader keeps it: its first `BufferSize` bytes. */
  function Truncated(file: seq<Byte>): (r: seq<Byte>)
    ensures |r| == Min(|file|, BufferSize)
    ensures r <= file
  {
    file[..Min(|file|, BufferSize)]
  }

  /**
   * The step at which a load stopped: `Loaded` when it returned true,
   * otherwise the check that failed: which failure diagnostic, if any, the
   * code writes to standard error.
   */
  datatype Status =
    | Loaded
    | MissingPrivateKeyPath
    | PrivateKeyReadFailed
    | MissingCertificateChainPath
    | CertificateChainReadFailed

  /** The two process-wide strings. */
  datatype Material = Material(privateKey: seq<Byte>, certificateChain: seq<Byte>)

  datatype Outcome = Outcome(status: Status, material: Material)

  /**
   * What one load does to the globals `before`, step by step in the code's
   * order; a failing step stops the load and keeps what earlier steps
   * already published.
   */
  function Load(role: Role, privateKeyPath: string, certificateChainPath: string, fs: FileSystem, before: Material): (r: Outcome)
    // a failure before the key is stored publishes nothing
    ensures r.status == MissingPrivateKeyPath || r.status == PrivateKeyReadFailed ==> r.material == before
    // only a server writes the key, and only with the bytes of its key file
    ensures r.material.privateKey != before.privateKey ==>
      role == Server && privateKeyPath in fs && r.material.privateKey == Truncated(fs[privateKeyPath])
    // the certificate is written only by a load that succeeds, with the bytes of its file
    ensures r.material.certificateChain != before.certificateChain ==>
      r.status == Loaded && certificateChainPath in fs && r.material.certificateChain == Truncated(fs[certificateChainPath])
  {
    if role == Server && privateKeyPath == "" then
      Outcome(MissingPrivateKeyPath, before)
    else if role == Server && ReadCount(fs, privateKeyPath, BufferSize) <= 0 then
      Outcome(PrivateKeyReadFailed, before)
    else
      var afterKey := if role == Server then before.(privateKey := Truncated(fs[privateKeyPath])) else before;
      if role == Server && certificateChainPath == "" then
        Outcome(MissingCertificateChainPath, afterKey)
      else if certificateChainPath == "" then
        Outcome(Loaded, afterKey)
      else if ReadCount(fs, certificateChainPath, BufferSize) <= 0 then
        Outcome(CertificateChainReadFailed, afterKey)
      else
        Outcome(Loaded, afterKey.(certificateChain := Truncated(fs[certificateChainPath])))
  }

  /** A server without a private-key path fails first, whatever the certificate path, and publishes nothing. */
  lemma ServerWithoutKeyPathFails(certificateChainPath: string, fs: FileSystem, before: Material)
    ensures Load(Server, "", certificateChainPath, fs, before) == Outcome(MissingPrivateKeyPath, before)
  {
  }

  /**
   * A key file that cannot be read, or reads as zero bytes, is a read failure
   * for a server, and nothing is published.
   */
  lemma UnreadableKeyFileFails(privateKeyPath: string, certificateChainPath: string, fs: FileSystem, before: Material)
    requires privateKeyPath != ""
    requires privateKeyPath !in fs || fs[privateKeyPath] == []
    ensures Load(Server, privateKeyPath, certificateChainPath, fs, before) == Outcome(PrivateKeyReadFailed, before)
  {
  }

  /**
   * A certificate chain that cannot be read, or reads as zero bytes, makes the
   * load fail and leaves `g_certificate_chain_content` as it was, in either role.
   */
  lemma UnreadableCertificateChainFails(role: Role, privateKeyPath: string, certificateChainPath: string, fs: FileSystem, before: Material)
    requires certificateChainPath != ""
    requires certificateChainPath !in fs || fs[certificateChainPath] == []
    ensures Load(role, privateKeyPath, certificateChainPath, fs, before).status != Loaded
    ensures Load(role, privateKeyPath, certificateChainPath, fs, before).material.certificateChain == before.certificateChain
  {
  }

  /**
   * Once the key read succeeds, `g_private_key_content` holds exactly the
   * bytes read: a non-empty prefix of the file of at most 256 KiB, the whole
   * file when it fits and its first 256 KiB when it does not.
   */
  lemma PublishedKeyIsBoundedPrefix(privateKeyPath: string, certificateChainPath: string, fs: FileSystem, before: Material)
    requires privateKeyPath != "" && ReadCount(fs, privateKeyPath, BufferSize) > 0
    ensures var key := Load(Server, privateKeyPath, certificateChainPath, fs, before).material.privateKey;
      0 < |key| <= BufferSize && key <= fs[privateKeyPath] &&
      |key| == ReadCount(fs, privateKeyPath, BufferSize) &&
      (|fs[privateKeyPath]| <= BufferSize ==> key == fs[privateKeyPath]) &&
      (|fs[privateKeyPath]| > BufferSize ==> |key| == BufferSize)
  {
  }

  /**
   * A certificate read that succeeds publishes exactly the bytes read: a
   * non-empty prefix of the file of at most 256 KiB; the load then succeeds.
   */
  lemma PublishedCertificateChainIsBoundedPrefix(role: Role, privateKeyPath: string, certificateChainPath: string, fs: FileSystem, before: Material)
    requires role == Server ==> privateKeyPath != "" && ReadCount(fs, privateKeyPath, BufferSize) > 0
    requires certificateChainPath != "" && ReadCount(fs, certificateChainPath, BufferSize) > 0
    ensures var outcome := Load(role, privateKeyPath, certificateChainPath, fs, before);
      outcome.status == Loaded &&
      0 < |outcome.material.certificateChain| <= BufferSize &&
      outcome.material.certificateChain <= fs[certificateChainPath] &&
      |outcome.material.certificateChain| == ReadCount(fs, certificateChainPath, BufferSize)
  {
  }

  /**
   * A server whose key loads but which has no certificate path fails, and the
   * key it has already published stays published: there is no rollback.
   */
  lemma KeyPublishedDespiteMissingCertificatePath(privateKeyPath: string, fs: FileSystem, before: Material)
    requires privateKeyPath != "" && ReadCount(fs, privateKeyPath, BufferSize) > 0
    ensures var outcome := Load(Server, privateKeyPath, "", fs, before);
      outcome.status == MissingCertificateChainPath &&
      outcome.material == Material(Truncated(fs[privateKeyPath]), before.certificateChain)
  {
  }

  /**
   * A client never reads the key and never writes `g_private_key_content`;
   * without a certificate path it succeeds and changes nothing at all.
   */
  lemma ClientLeavesKeyAlone(privateKeyPath: string, certificateChainPath: string, fs: FileSystem, before: Material)
    ensures Load(Client, privateKeyPath, certificateChainPath, fs, before).material.privateKey == before.privateKey
    ensures certificateChainPath == "" ==> Load(Client, privateKeyPath, "", fs, before) == Outcome(Loaded, before)
  {
  }

  /** A server that loads successfully has published non-empty key and certificate chain read in this call. */
  lemma ServerSuccessPublishesBoth(privateKeyPath: string, certificateChainPath: string, fs: FileSystem, before: Material)
    requires Load(Server, privateKeyPath, certificateChainPath, fs, before).status == Loaded
    ensures var m := Load(Server, privateKeyPath, certificateChainPath, fs, before).material;
      privateKeyPath in fs && certificateChainPath in fs &&
      m == Material(Truncated(fs[privateKeyPath]), Truncated(fs[certificateChainPath])) &&
      |m.privateKey| > 0 && |m.certificateChain| > 0
  {
  }

  /**
   * When a load succeeds, in both directions: the server needs a key path that
   * reads at least one byte and a certificate path; any certificate path given
   * must read at least one byte.
   */
  lemma LoadedExactlyWhen(role: Role, privateKeyPath: string, certificateChainPath: string, fs: FileSystem, before: Material)
    ensures Load(role, privateKeyPath, certificateChainPath, fs, before).status == Loaded <==>
      (role == Server ==> privateKeyPath != "" && ReadCount(fs, privateKeyPath, BufferSize) > 0 && certificateChainPath != "") &&
      (certificateChainPath != "" ==> ReadCount(fs, certificateChainPath, BufferSize) > 0)
  {
  }

  /** The process-wide TLS material, written by the loader. */
  class TlsMaterial {
    /** `g_private_key_content` */
    var privateKeyContent: seq<Byte>
    /** `g_certificate_chain_content` */
    var certificateChainContent: seq<Byte>

    function Contents(): Material
      reads this
    {
      Material(privateKeyContent, certificateChainContent)
    }

    /** Both globals start out as empty strings. */
    constructor ()
      ensures Contents() == Material([], [])
    {
      privateKeyContent := [];
      certificateChainContent := [];
    }

    /** `config::ReadTLSConfigFile`. */
    method ReadTlsConfigFile(role: Role, privateKeyFile: string, certificateChainFile: string, fs: FileSystem)
      returns (ok: bool)
      modifies this
      ensures var outcome := Load(role, privateKeyFile, certificateChainFile, fs, old(Contents()));
        ok == (outcome.status == Loaded) && Contents() == outcome.material
    {
      var ret: int;
      if role == Server {
        var privateKey: seq<Byte> := [];
        var privateKeyPath := privateKeyFile;
        if privateKeyPath == "" {
          return false;
        }
        privateKey := Resize(privateKey, BufferSize);
        var read := ReadFileToBuffer(fs, privateKeyPath, privateKey);
        ret, privateKey := read.ret, read.buffer;
        if ret <= 0 {
          return false;
        }
        privateKey := Resize(privateKey, ret);
        privateKeyContent := privateKey;
      }
      var certificateChain: seq<Byte> := [];
      var certificateChainPath := certificateChainFile;
      if role == Server && certificateChainPath == "" {
        return false;
      }
      if certificateChainPath != "" {
        certificateChain := Resize(certificateChain, BufferSize);
        var read := ReadFileToBuffer(fs, certificateChainPath, certificateChain);
        ret, certificateChain := read.ret, read.buffer;
        if ret <= 0 {
          return false;
        }
        certificateChain := Resize(certificateChain, ret);
        certificateChainContent := certificateChain;
      }
      return true;
    }
  }
}

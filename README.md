# TLS material loader and telemetry codec of yass

This project models two small pieces of the yass proxy in Dafny and proves what they do.

- **`TlsConfig`** (`tls_config.dfy`) models `config::ReadTLSConfigFile`. The function takes a role (server or client) and two configured paths. It reads the private key and the certificate chain, at most 256 KiB each, into the process-wide strings `g_private_key_content` and `g_certificate_chain_content`.
  - The two globals are fields of the class `TlsMaterial`.
  - The method `ReadTlsConfigFile` follows the code statement by statement. It grows a local buffer with `std::string::resize`, reads into it and shrinks it to the count read. Its postcondition equates the returned flag and the new globals with the specification function `Load`.
  - `Load` states the same behaviour step by step, in the code's order of checks. It also reports which check stopped the load (`Status`: which failure diagnostic, if any, the code writes).
  - The lemmas state the role rules, the order of the checks, the byte bounds and the absence of rollback.
- **`JsonValue`** (`json_value.dfy`) holds the part of a jsoncpp `Json::Value` that the codec uses. It has the value kinds, `isMember`, `isUInt64` and `asUInt64`, and 64-bit integer types.
- **`Telemetry`** (`telemetry.dfy`) models `serializeTelemetryJson` and `parseTelemetryJson` over that value type. jsoncpp's text writer and text reader are function parameters. The reader answers `None` for text that does not parse.
  - The out-pointers of `parseTelemetryJson` become in/out parameters.
  - `SerializeTelemetryJson` promises that its text decodes back to the same pair under any reader that reads it back as an object holding both counters. jsoncpp's reader returns a counter up to the largest signed 64-bit integer as a signed integer and a larger one as an unsigned integer; both are accepted.
  - The lemmas state the value round trip, the rejection cases, the zero defaults, the independence of the two fields and that unknown members are ignored.

Three behaviours of the loader are worth knowing:
- A server stores the private key in `g_private_key_content` (src/config/config_tls.cpp:60) before it checks the certificate path. A later failure keeps that key. `KeyPublishedDespiteMissingCertificatePath` states this.
- A client never writes `g_private_key_content`. Without a certificate path it does not write `g_certificate_chain_content` either. Both strings keep their earlier values. They are empty only when nothing wrote them before, as after `TlsMaterial.constructor`.
- A file larger than 256 KiB is silently cut to its first 256 KiB. It is not an error.

## Model

| member | source | states |
|---|---|---|
| `TlsConfig.TlsMaterial.constructor` | src/config/config_tls.cpp:10-11 | both process-wide strings start out empty |
| `TlsConfig.TlsMaterial.ReadTlsConfigFile` | src/config/config_tls.cpp:41-81 | the result and the new key and certificate globals are exactly what `Load` gives for the role, paths, file system and old globals |
| `TlsConfig.Resize` | src/config/config_tls.cpp:53-59 | `std::string::resize`: the result has the requested length, keeps the common prefix and pads with NUL bytes |
| `TlsConfig.ReadFileToBuffer` | src/config/config_tls.cpp:54-58 | the read returns at most the buffer size; an unreadable path gives a count of 0 or less and leaves the buffer unchanged; a positive count means the buffer starts with that many bytes of the file and keeps its length |
| `TlsConfig.Truncated` | src/config/config_tls.cpp:43-60 | what the loader keeps of a file is a prefix of it of length min(file size, 256 KiB) |
| `TlsConfig.Load` | src/config/config_tls.cpp:41-81 | a failure before the key is stored publishes nothing; the key global changes only for a server and only to the truncated bytes of its key file; the certificate global changes only in a load that succeeds and only to the truncated bytes of its certificate file |
| `TlsConfig.ServerWithoutKeyPathFails` | src/config/config_tls.cpp:47-52 | a server with an empty key path fails at the key-path check, even when the certificate path is also empty, and changes neither global |
| `TlsConfig.UnreadableKeyFileFails` | src/config/config_tls.cpp:53-58 | for a server, a key file that cannot be read or reads zero bytes is a read failure, and neither global changes |
| `TlsConfig.UnreadableCertificateChainFails` | src/config/config_tls.cpp:68-74 | in either role, a certificate path that is unreadable or reads zero bytes makes the load fail and leaves the certificate global unchanged |
| `TlsConfig.PublishedKeyIsBoundedPrefix` | src/config/config_tls.cpp:43-60 | after a successful key read the key global is exactly the bytes read: a non-empty prefix of the file, at most 256 KiB, the whole file when it fits and the first 256 KiB when it does not |
| `TlsConfig.PublishedCertificateChainIsBoundedPrefix` | src/config/config_tls.cpp:68-80 | a successful certificate read publishes exactly the bytes read, a non-empty prefix of the file of at most 256 KiB, and the load succeeds |
| `TlsConfig.KeyPublishedDespiteMissingCertificatePath` | src/config/config_tls.cpp:59-67 | a server with a readable key and no certificate path fails, yet the key global already holds the key: there is no rollback |
| `TlsConfig.ClientLeavesKeyAlone` | src/config/config_tls.cpp:47-80 | a client never changes the key global; with no certificate path it succeeds and changes nothing |
| `TlsConfig.ServerSuccessPublishesBoth` | src/config/config_tls.cpp:47-78 | a server load that succeeds has set both globals to the non-empty truncated contents of the two files |
| `TlsConfig.LoadedExactlyWhen` | src/config/config_tls.cpp:41-81 | a load succeeds if and only if the server has a readable non-empty key and a certificate path, and any certificate path given reads at least one byte |
| `Telemetry.TelemetryJson` | src/ios/utils.cpp:14-17 | the encoded value is an object with exactly the two members `total_rx_bytes` and `total_tx_bytes`, each an unsigned 64-bit integer equal to its input |
| `Telemetry.SerializeTelemetryJson` | src/ios/utils.cpp:14-44 | the text is what the writer makes of the encoded object, so any reader that reads the writer's text back as an object whose two counter members hold `rx` and `tx` (as signed or unsigned integers) decodes it to `(rx, tx)` |
| `Telemetry.CounterOrZero` | src/ios/utils.cpp:36-43 | a counter is non-zero only when its member is present and is an unsigned 64-bit integer, and then it is that member's value |
| `Telemetry.DecodeTelemetry` | src/ios/utils.cpp:33-44 | decoding a parsed root succeeds exactly when the root is an object |
| `Telemetry.ParseTelemetry` | src/ios/utils.cpp:24-44 | decoding text succeeds exactly when the text parses to an object |
| `Telemetry.ParseTelemetryJson` | src/ios/utils.cpp:24-45 | returns true exactly when the text parses to an object, and then writes the decoded counters; on failure both out-values are left as they were |
| `Telemetry.RoundTrip` | src/ios/utils.cpp:15-44 | decoding the value built by encoding `(rx, tx)` gives back `(rx, tx)` |
| `Telemetry.UnparsableRejected` | src/ios/utils.cpp:30-32 | text that does not parse is rejected |
| `Telemetry.NonObjectRejected` | src/ios/utils.cpp:33-35 | a scalar or array root is rejected |
| `Telemetry.ObjectAccepted` | src/ios/utils.cpp:33-44 | every object root is accepted, and one with neither member gives `(0, 0)` |
| `Telemetry.EmptyObjectIsZero` | src/ios/utils.cpp:36-44 | the empty object decodes to `(0, 0)` |
| `Telemetry.RxDefaultsToZero` | src/ios/utils.cpp:36-39 | an absent or non-uint64 `total_rx_bytes` (a negative number, a string, ...) gives 0, and `total_tx_bytes` is decoded as if that member were not there |
| `Telemetry.TxDefaultsToZero` | src/ios/utils.cpp:40-43 | an absent or non-uint64 `total_tx_bytes` gives 0, and `total_rx_bytes` is decoded as if that member were not there |
| `Telemetry.OtherMembersIgnored` | src/ios/utils.cpp:37-43 | adding or changing a member other than the two counters leaves the decoded counters unchanged |

## Left out

- The command-line flags and their definitions (src/config/config_tls.cpp:13-38), including the `YASS_CA_BUNDLE` default of `cacert`. The two paths the loader uses are method inputs.
- `pType_IsServer()` is not part of this model. The role is a method input.
- `ReadFileToBuffer`: the file-reading primitive is replaced by this function over a file-system map. The map holds every path the process can open and read, with the bytes of that file. A path outside the map fails with -1. A readable file gives min(file size, buffer size) bytes. Short reads that return fewer bytes than are available are not modelled, nor are read errors on a file that opened.
- The diagnostics written to `std::cerr` are not modelled as output. `Status` records only which failure diagnostic, if any, the code writes. The "Using …" notices (src/config/config_tls.cpp:61, 77) are not recorded.
- jsoncpp's text writer and reader are not modelled: indentation, comment handling and the JSON grammar. They are the parameters `write` and `parse`. The text round trip is proved only for readers that return an object holding both counter members, each as a signed or unsigned integer equal to the counter.
- `JsonValue.IsUInt64`: jsoncpp also accepts a real number that is integral and in range as a uint64. The model puts reals under `Other` and never accepts them. Null and booleans are under `Other` too.
- `ParseTelemetryJson` treats the two out-pointers as distinct. If both pointed to the same counter, the source would leave the tx value in it, because it writes rx before tx (src/ios/utils.cpp:36-43). The model does not capture that aliasing.
- The network headers included by src/ios/utils.cpp are not used by the codec and are not modelled.

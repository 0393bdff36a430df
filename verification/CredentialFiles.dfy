/** The fixed credential files below the data directory: tools/tls_support.py. */
module CredentialFiles {
  type Bytes = string

  /** The seven files, by their place below the data directory. */
  datatype Rel = ServerPem | ServerKeyPem | CaPem | DevicesJson | AdminCaPem | AdminClientPem | AdminClientKeyPem

  const RELAY_FILES: seq<Rel> := [ServerPem, ServerKeyPem, CaPem, DevicesJson]
  const ADMIN_FILES: seq<Rel> := [AdminCaPem, AdminClientPem, AdminClientKeyPem]

  /** The configuration field that used to name the file. */
  function Field(rel: Rel): string {
    match rel
    case ServerPem => "server_cert_file"
    case ServerKeyPem => "server_key_file"
    case CaPem => "client_ca_file"
    case DevicesJson => "device_allowlist_file"
    case AdminCaPem => "ca_file"
    case AdminClientPem => "client_cert_file"
    case AdminClientKeyPem => "client_key_file"
  }
}

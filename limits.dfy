/** Fixed sizes and limits of the telemetry server (ws_limits.h, proc.h,
    stats.h, storage.h, system_info.h), and the fixed-width integer
    conversions the C code performs implicitly. */
module Limits {

  /** Established plus in-progress WebSocket clients (ws_limits.h). */
  const MAX_WS_CONNECTED_CLIENTS: nat := 10
  /** Size of one periodic snapshot frame (ws_limits.h). */
  const MAX_WS_MESSAGE_LENGTH: nat := 1024
  /** Size of a one-shot list response (ws_limits.h). */
  const MAX_LIST_JSON_LENGTH: nat := 8192
  /** Inbound messages of this many bytes or more are ignored (ws_server.c). */
  const MAX_RECEIVE_LENGTH: nat := 128

  /** Process-name buffer, NUL included (proc.h). */
  const MAX_PROC_NAME_LENGTH: nat := 64
  /** Cap on unique names in a process-list response (proc.h). */
  const MAX_PROCESS_COUNT: nat := 256
  /** Path buffers, NUL included (proc.h). */
  const MAX_PROC_PATH_LENGTH: nat := 256
  /** fgets() buffer for /proc text files (stats.h). */
  const MAX_PROC_LINE_LENGTH: nat := 512

  /** Storage entries a storage response may hold (storage.h). */
  const MAX_STORAGE_MOUNTS: nat := 8
  /** Filesystem-type buffer, NUL included (storage.h). */
  const FS_TYPE_LENGTH: nat := 32
  /** Each system_info text field, NUL included (system_info.h). */
  const MAX_SYSINFO_FIELD: nat := 128

  /** Scratch buffers of build_stats_json (json_out.c). */
  const FRAGMENT_BUFFER_LENGTH: nat := 256
  const ERROR_MESSAGE_LENGTH: nat := 128

  const TWO_64: nat := 0x1_0000_0000_0000_0000
  const U64_MAX: nat := TWO_64 - 1
  const LONG_MAX: nat := 0x7FFF_FFFF_FFFF_FFFF
  const INT_MAX: nat := 0x7FFF_FFFF
  const TWO_32: nat := 0x1_0000_0000

  /** Conversion to, or arithmetic in, uint64_t / unsigned long long: modulo 2^64. */
  function WrapU64(x: int): nat
  {
    x % TWO_64
  }

  /** Values that fit are unchanged by the conversion. */
  lemma WrapU64Small(x: int)
    requires 0 <= x < TWO_64
    ensures WrapU64(x) == x
  {
  }

  /** strtol saturates at LONG_MAX on overflow. */
  function ClampLong(x: nat): nat
  {
    if x <= LONG_MAX then x else LONG_MAX
  }
}

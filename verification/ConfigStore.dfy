/**
 * The flash copy of the config: firmware/adapters/esp32/config_store_esp32.c.
 * NVS is one cell whose every access may fail; a failed write leaves the old
 * record, the new one, or nothing.
 */
module ConfigStore {
  import opened Bytes
  import opened Options
  import opened Downlink
  import opened NodeState

  const RECORD_VERSION: Byte := 1
  const RECORD_LEN := 7

  /** The stored blob, if the key exists. */
  type Blob = Option<seq<Byte>>

  function Record(cfg: Config): seq<Byte> {
    [RECORD_VERSION] + ThreeWords(cfg.sampleIntervalS, ToU16(cfg.pmOffsetX10), ToU16(cfg.tempOffsetX100))
  }

  /** The config in a blob: any other length or version is ignored. */
  function Parsed(blob: Blob): Option<Config> {
    if blob.None? || |blob.value| != RECORD_LEN || blob.value[0] != RECORD_VERSION then None
    else Some(Config(ReadLe16(blob.value, 1), ToI16(ReadLe16(blob.value, 3)), ToI16(ReadLe16(blob.value, 5))))
  }

  /** The config a cold boot takes up when it can read the cell. */
  function Restored(blob: Blob): (cfg: Config)
    ensures ConfigValid(cfg)
  {
    Fresh(Parsed(blob)).cfg
  }

  lemma RestoreUndoesRecord(cfg: Config)
    ensures Parsed(Some(Record(cfg))) == Some(cfg)
    ensures Restored(Some(Record(cfg))) == if ConfigValid(cfg) then cfg else DEFAULT_CONFIG
  {
    ThreeWordsRead([RECORD_VERSION], cfg.sampleIntervalS, ToU16(cfg.pmOffsetX10), ToU16(cfg.tempOffsetX100));
  }

  /** Which blobs are records, and what they say, byte by byte. */
  lemma RecordByteByByte(b: seq<Byte>)
    ensures Parsed(Some(b)).Some? <==> |b| == 7 && b[0] == 1
    ensures Parsed(Some(b)).Some? ==>
      var (cfg, pm, temp) := (Parsed(Some(b)).value, b[3] as int + 256 * b[4] as int, b[5] as int + 256 * b[6] as int);
      && cfg.sampleIntervalS == b[1] as int + 256 * b[2] as int
      && cfg.pmOffsetX10 == (if b[4] < 128 then pm else pm - 65536)
      && cfg.tempOffsetX100 == (if b[6] < 128 then temp else temp - 65536)
  {
  }

  /** How `ensure_nvs` ends: a full or foreign partition is erased first. */
  datatype Mount = Mounted | Erased | Failed | FailedErased {
    predicate Ok() {
      Mounted? || Erased?
    }

    function Leaves(blob: Blob): Blob {
      if Erased? || FailedErased? then None else blob
    }
  }

  datatype Left = OldRecord | NewRecord | NoRecord

  datatype LoadEnv = LoadEnv(mount: Mount, readOk: bool)
  datatype Write = Written | Refused(left: Left)
  datatype SaveEnv = SaveEnv(mount: Mount, write: Write)

  predicate LoadOk(env: LoadEnv) {
    env.mount.Ok() && env.readOk
  }

  predicate SaveOk(env: SaveEnv) {
    env.mount.Ok() && env.write.Written?
  }

  function Loaded(blob: Blob, env: LoadEnv): Option<Config> {
    if LoadOk(env) then Parsed(env.mount.Leaves(blob)) else None
  }

  function LeftBy(blob: Blob, cfg: Config, left: Left): Blob {
    match left
    case OldRecord => blob
    case NewRecord => Some(Record(cfg))
    case NoRecord => None
  }

  function BlobAfterSave(blob: Blob, cfg: Config, env: SaveEnv): Blob {
    var mounted := env.mount.Leaves(blob);
    if !env.mount.Ok() then mounted
    else if env.write.Written? then Some(Record(cfg))
    else LeftBy(mounted, cfg, env.write.left)
  }

  /** The NVS cell. The outcome of each driver call is an input. */
  class FlashCell {
    var blob: Blob

    constructor (b: Blob)
      ensures blob == b
    {
      blob := b;
    }

    /** `ensure_nvs` */
    method Mount(mount: Mount) returns (ok: bool)
      modifies this
      ensures blob == mount.Leaves(old(blob)) && ok == mount.Ok()
    {
      if mount.Erased? || mount.FailedErased? {
        blob := None;
      }
      return mount.Mounted? || mount.Erased?;
    }

    /** `esp32_config_load` */
    method Load(env: LoadEnv) returns (stored: Option<Config>)
      modifies this
      ensures blob == env.mount.Leaves(old(blob))
      ensures stored == Loaded(old(blob), env)
    {
      var mounted := Mount(env.mount);
      if !mounted || !env.readOk || blob.None? {
        return None;
      }
      var rec := blob.value;
      if |rec| != RECORD_LEN || rec[0] != RECORD_VERSION {
        return None;
      }
      return Some(Config(
        rec[1] as int + 0x100 * rec[2] as int,
        ToI16(rec[3] as int + 0x100 * rec[4] as int),
        ToI16(rec[5] as int + 0x100 * rec[6] as int)));
    }

    /** `esp32_config_save` */
    method Save(cfg: Config, env: SaveEnv) returns (ok: bool)
      modifies this
      ensures blob == BlobAfterSave(old(blob), cfg, env)
      ensures ok == SaveOk(env)
    {
      var mounted := Mount(env.mount);
      if !mounted {
        return false;
      }
      var pm := ToU16(cfg.pmOffsetX10);
      var temp := ToU16(cfg.tempOffsetX100);
      var rec: seq<Byte> := [
        RECORD_VERSION,
        cfg.sampleIntervalS % 0x100, cfg.sampleIntervalS / 0x100,
        pm % 0x100, pm / 0x100,
        temp % 0x100, temp / 0x100];
      assert rec == Record(cfg);
      match env.write
      case Written =>
        blob := Some(rec);
        return true;
      case Refused(left) =>
        if left == NewRecord {
          blob := Some(rec);
        } else if left == NoRecord {
          blob := None;
        }
        return false;
    }
  }
}

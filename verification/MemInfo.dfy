/**
 * The parser of /proc/meminfo (parseMemInfo in internal/collector/mem_linux.go).
 */
module MemInfo {
  import opened LineFormat
  import opened StreamingStats

  const KEYS: seq<string> :=
    ["MemTotal", "MemFree", "MemAvailable", "Buffers", "Cached", "SwapTotal", "SwapFree"]

  class MemStats {
    var memTotal: nat
    var memFree: nat
    var memAvailable: nat
    var buffers: nat
    var cached: nat
    var swapTotal: nat
    var swapFree: nat

    constructor ()
      ensures Fields() == [0, 0, 0, 0, 0, 0, 0]
    {
      memTotal, memFree, memAvailable, buffers, cached, swapTotal, swapFree := 0, 0, 0, 0, 0, 0, 0;
    }

    /** The fields, in the order of KEYS. */
    ghost function Fields(): seq<nat>
      reads this
    {
      [memTotal, memFree, memAvailable, buffers, cached, swapTotal, swapFree]
    }

    /** The switch over recognised keys. */
    method Store(key: string, value: nat) returns (known: bool)
      modifies this
      ensures known <==> key in KEYS
      ensures Stores(KEYS, old(Fields()), Fields(), Some(Field(key, value)))
    {
      known := true;
      if key == "MemTotal" {
        memTotal := value;
      } else if key == "MemFree" {
        memFree := value;
      } else if key == "MemAvailable" {
        memAvailable := value;
      } else if key == "Buffers" {
        buffers := value;
      } else if key == "Cached" {
        cached := value;
      } else if key == "SwapTotal" {
        swapTotal := value;
      } else if key == "SwapFree" {
        swapFree := value;
      } else {
        known := false;
      }
    }

    /**
     * Each field ends as the last value recorded for its key, or as it was; the parse fails exactly
     * when no line records any of the keys.
     */
    method Parse(input: string) returns (ok: bool)
      modifies this
      ensures AllLatest(':', Lines(input), KEYS, old(Fields()), Fields())
      ensures ok <==> AnyKnown(':', Lines(input), KEYS)
    {
      var data, seen := input, 0;
      ghost var done: seq<string> := [];
      while |data| > 0
        invariant Lines(input) == done + Lines(data)
        invariant AllLatest(':', done, KEYS, old(Fields()), Fields())
        invariant seen > 0 <==> AnyKnown(':', done, KEYS)
        decreases |data|
      {
        LinesNext(done, data);
        var line := FirstLine(data);
        data := LaterLines(data);
        ghost var was := Fields();
        var field := ParseLine(line, ':');
        if field.Some? {
          var known := Store(field.value.key, field.value.value);
          if known {
            seen := seen + 1;
          }
        }
        LatestNext(':', done, line, KEYS, old(Fields()), was, Fields());
        AnyKnownNext(':', done, line, KEYS);
        done := done + [line];
      }
      assert Lines(input) == done;
      ok := seen > 0;
    }
  }
}

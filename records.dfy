/** The decoded rows. The parser returns one flat tuple per row, headed by a
    kind label and the row code; here each tuple shape is a constructor of
    `Record`, and `AsTuple` gives back the tuple slot by slot. */
module Records {
  import opened Outcomes
  import opened Numbers

  /** One slot of a returned tuple. */
  datatype Value = Str(s: string) | Int(i: int) | Float(f: FloatLiteral) | Null

  datatype Record =
    /** Row code 2: non-directional beacon. */
    | NdbRecord(lat: FloatLiteral, lon: FloatLiteral, elevFt: int, freqKhz: int,
                ndbClass: Option<string>, localId: string, terminalRegion: string,
                icaoRegion: string, name: string)
    /** Row code 3: VOR, VOR-DME or VORTAC. */
    | VorRecord(lat: FloatLiteral, lon: FloatLiteral, elevFt: int, freqMhzX100: int,
                vorClass: Option<string>, slavedVariation: FloatLiteral, localId: string,
                enrt: string, icaoRegion: string, name: string)
    /** Row codes 4 and 5: localizer. */
    | LocRecord(code: int, lat: FloatLiteral, lon: FloatLiteral, elevFt: int, freqMhzX100: int,
                maxRangeNm: int, bearing: FloatLiteral, localId: string, airportIcao: string,
                icaoRegion: string, runway: string, name: string)
    /** Row code 6: glideslope. */
    | GliRecord(lat: FloatLiteral, lon: FloatLiteral, elevFt: int, freqMhzX100: int,
                maxRangeNm: int, bearing: FloatLiteral, localId: string, airportIcao: string,
                icaoRegion: string, runway: string, name: string)
    /** Row codes 7, 8 and 9: outer, middle and inner marker. */
    | MrkRecord(code: int, lat: FloatLiteral, lon: FloatLiteral, elevFt: int,
                bearing: FloatLiteral, airportIcao: string, icaoRegion: string,
                runway: string, name: string)
    /** Row codes 12 and 13: DME. */
    | DmeRecord(code: int, lat: FloatLiteral, lon: FloatLiteral, elevFt: int, freqMhzX100: int,
                serviceVolume: int, bias: FloatLiteral, localId: string, airportIcao: string,
                icaoRegion: string, name: string)
    /** Row codes 14, 15 and 16: the payload passed through undecoded. */
    | EchoRecord(code: int, payload: string)

  /** The label in the first slot of the tuple. */
  function Kind(r: Record): string {
    match r
    case NdbRecord(_, _, _, _, _, _, _, _, _) => "NDB"
    case VorRecord(_, _, _, _, _, _, _, _, _, _) => "VOR"
    case LocRecord(_, _, _, _, _, _, _, _, _, _, _, _) => "LOC"
    case GliRecord(_, _, _, _, _, _, _, _, _, _, _) => "GLI"
    case MrkRecord(_, _, _, _, _, _, _, _, _) => "MRK"
    case DmeRecord(_, _, _, _, _, _, _, _, _, _, _) => "DME"
    case EchoRecord(code, _) =>
      if code == 14 then "FPAP" else if code == 15 then "GLS" else "LTP/FTP"
  }

  /** The row code in the second slot of the tuple: fixed for NDB, VOR and
      glideslope rows, bound by the dispatch table for the others. */
  function RowCode(r: Record): int {
    match r
    case NdbRecord(_, _, _, _, _, _, _, _, _) => 2
    case VorRecord(_, _, _, _, _, _, _, _, _, _) => 3
    case GliRecord(_, _, _, _, _, _, _, _, _, _, _) => 6
    case LocRecord(code, _, _, _, _, _, _, _, _, _, _, _) => code
    case MrkRecord(code, _, _, _, _, _, _, _, _) => code
    case DmeRecord(code, _, _, _, _, _, _, _, _, _, _) => code
    case EchoRecord(code, _) => code
  }

  function OptStr(o: Option<string>): Value {
    match o
    case Some(s) => Str(s)
    case None => Null
  }

  /** The tuple the parser returns for `r`, slot by slot. NDB, VOR and DME
      tuples have 12 slots, LOC, GLI and MRK 13, the passthrough 3; the
      slots a layout has no value for hold `None`. */
  function AsTuple(r: Record): (t: seq<Value>)
    ensures |t| == (if r.EchoRecord? then 3
                    else if r.NdbRecord? || r.VorRecord? || r.DmeRecord? then 12
                    else 13)
    ensures t[0] == Str(Kind(r)) && t[1] == Int(RowCode(r))
    ensures r.NdbRecord? ==> t[7] == Null
    ensures r.MrkRecord? ==> t[5] == Null && t[6] == Null && t[8] == Null
    ensures !r.EchoRecord? ==> t[|t| - 1] == Str(r.name)
    ensures r.EchoRecord? ==> t[2] == Str(r.payload)
  {
    var head := [Str(Kind(r)), Int(RowCode(r))];
    match r
    case NdbRecord(lat, lon, elev, freq, cls, id, region, icao, name) =>
      head + [Float(lat), Float(lon), Int(elev), Int(freq), OptStr(cls), Null,
              Str(id), Str(region), Str(icao), Str(name)]
    case VorRecord(lat, lon, elev, freq, cls, variation, id, enrt, icao, name) =>
      head + [Float(lat), Float(lon), Int(elev), Int(freq), OptStr(cls), Float(variation),
              Str(id), Str(enrt), Str(icao), Str(name)]
    case LocRecord(_, lat, lon, elev, freq, range, bearing, id, airport, icao, runway, name) =>
      head + [Float(lat), Float(lon), Int(elev), Int(freq), Int(range), Float(bearing),
              Str(id), Str(airport), Str(icao), Str(runway), Str(name)]
    case GliRecord(lat, lon, elev, freq, range, bearing, id, airport, icao, runway, name) =>
      head + [Float(lat), Float(lon), Int(elev), Int(freq), Int(range), Float(bearing),
              Str(id), Str(airport), Str(icao), Str(runway), Str(name)]
    case MrkRecord(_, lat, lon, elev, bearing, airport, icao, runway, name) =>
      head + [Float(lat), Float(lon), Int(elev), Null, Null, Float(bearing),
              Null, Str(airport), Str(icao), Str(runway), Str(name)]
    case DmeRecord(_, lat, lon, elev, freq, volume, bias, id, airport, icao, name) =>
      head + [Float(lat), Float(lon), Int(elev), Int(freq), Int(volume), Float(bias),
              Str(id), Str(airport), Str(icao), Str(name)]
    case EchoRecord(_, payload) =>
      head + [Str(payload)]
  }
}

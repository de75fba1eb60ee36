/** The row decoders `parse_ndb`, `parse_vor`, `parse_loc`, `parse_gli`,
    `parse_mrk`, `parse_dme` and `echo`. Each one walks a cursor through the
    payload with the tokenizer step, converting some fields with `int()` or
    `float()` as soon as they are read, and hands the remaining text, stripped,
    to the name slot. A failed step or conversion fails the whole row. */
module Decoders {
  import opened Outcomes
  import opened Text
  import opened Numbers
  import opened Tokenizer
  import opened Classes
  import opened Records

  /** `parse_ndb(payload)`: row code 2. */
  function ParseNdb(payload: string): (r: Result<Record>)
    ensures r.Ok? ==> r.value.NdbRecord? && RowCode(r.value) == 2
  {
    var f1 :- NextField(payload);
    var lat :- ParseFloat(f1.field);
    var f2 :- NextField(f1.rest);
    var lon :- ParseFloat(f2.field);
    var f3 :- NextField(f2.rest);
    var elev :- ParseInt(f3.field);
    var f4 :- NextField(f3.rest);
    var freq :- ParseInt(f4.field);
    var f5 :- NextField(f4.rest);
    var cls :- ParseInt(f5.field);
    var f6 :- NextField(f5.rest);  // not used for NDBs
    var f7 :- NextField(f6.rest);
    var f8 :- NextField(f7.rest);
    var f9 :- NextField(f8.rest);
    Ok(NdbRecord(lat, lon, elev, freq, NdbClassName(cls), f7.field, f8.field, f9.field,
                 Strip(f9.rest)))
  }

  /** An NDB row decodes exactly when its payload yields 9 tokens before the
      name and tokens 1-2 are floats and 3-5 integers. Token 6 is dropped;
      tokens 7-9 are the identifier, the terminal region or ENRT and the ICAO
      region; the name is the rest, stripped. */
  lemma NdbLayout(p: string)
    ensures ParseNdb(p).Ok? <==>
              Fields(p, 9).Some?
              && var f := Fields(p, 9).value.fields;
                 IsFloatLiteral(f[0]) && IsFloatLiteral(f[1])
                 && IsIntLiteral(f[2]) && IsIntLiteral(f[3]) && IsIntLiteral(f[4])
    ensures ParseNdb(p).Ok? ==>
              var t := Fields(p, 9).value;
              var f := t.fields;
              ParseNdb(p).value
              == NdbRecord(FloatLiteral(f[0]), FloatLiteral(f[1]), IntValue(f[2]), IntValue(f[3]),
                           NdbClassName(IntValue(f[4])), f[6], f[7], f[8], Strip(t.rest))
  {
    if ParseNdb(p).Ok? {
      FieldsExtend(p, 0); FieldsExtend(p, 1); FieldsExtend(p, 2);
      FieldsExtend(p, 3); FieldsExtend(p, 4); FieldsExtend(p, 5);
      FieldsExtend(p, 6); FieldsExtend(p, 7); FieldsExtend(p, 8);
    }
    if Fields(p, 9).Some? {
      FieldsChainAt(p, 9, 0); FieldsChainAt(p, 9, 1); FieldsChainAt(p, 9, 2);
      FieldsChainAt(p, 9, 3); FieldsChainAt(p, 9, 4); FieldsChainAt(p, 9, 5);
      FieldsChainAt(p, 9, 6); FieldsChainAt(p, 9, 7); FieldsChainAt(p, 9, 8);
    }
  }

  /** `parse_vor(payload)`: row code 3. */
  function ParseVor(payload: string): (r: Result<Record>)
    ensures r.Ok? ==> r.value.VorRecord? && RowCode(r.value) == 3
  {
    var f1 :- NextField(payload);
    var lat :- ParseFloat(f1.field);
    var f2 :- NextField(f1.rest);
    var lon :- ParseFloat(f2.field);
    var f3 :- NextField(f2.rest);
    var elev :- ParseInt(f3.field);
    var f4 :- NextField(f3.rest);
    var freq :- ParseInt(f4.field);
    var f5 :- NextField(f4.rest);
    var cls :- ParseInt(f5.field);
    var f6 :- NextField(f5.rest);
    var variation :- ParseFloat(f6.field);
    var f7 :- NextField(f6.rest);
    var f8 :- NextField(f7.rest);
    var f9 :- NextField(f8.rest);
    Ok(VorRecord(lat, lon, elev, freq, VorClassName(cls), variation, f7.field, f8.field,
                 f9.field, Strip(f9.rest)))
  }

  /** A VOR row decodes exactly when its payload yields 9 tokens before the
      name, tokens 1-2 and 6 are floats and 3-5 integers. Token 6 is the
      slaved variation; tokens 7-9 are the identifier, the ENRT token (kept
      as written) and the ICAO region; the name is the rest, stripped. */
  lemma VorLayout(p: string)
    ensures ParseVor(p).Ok? <==>
              Fields(p, 9).Some?
              && var f := Fields(p, 9).value.fields;
                 IsFloatLiteral(f[0]) && IsFloatLiteral(f[1])
                 && IsIntLiteral(f[2]) && IsIntLiteral(f[3]) && IsIntLiteral(f[4])
                 && IsFloatLiteral(f[5])
    ensures ParseVor(p).Ok? ==>
              var t := Fields(p, 9).value;
              var f := t.fields;
              ParseVor(p).value
              == VorRecord(FloatLiteral(f[0]), FloatLiteral(f[1]), IntValue(f[2]), IntValue(f[3]),
                           VorClassName(IntValue(f[4])), FloatLiteral(f[5]), f[6], f[7], f[8],
                           Strip(t.rest))
  {
    if ParseVor(p).Ok? {
      FieldsExtend(p, 0); FieldsExtend(p, 1); FieldsExtend(p, 2);
      FieldsExtend(p, 3); FieldsExtend(p, 4); FieldsExtend(p, 5);
      FieldsExtend(p, 6); FieldsExtend(p, 7); FieldsExtend(p, 8);
    }
    if Fields(p, 9).Some? {
      FieldsChainAt(p, 9, 0); FieldsChainAt(p, 9, 1); FieldsChainAt(p, 9, 2);
      FieldsChainAt(p, 9, 3); FieldsChainAt(p, 9, 4); FieldsChainAt(p, 9, 5);
      FieldsChainAt(p, 9, 6); FieldsChainAt(p, 9, 7); FieldsChainAt(p, 9, 8);
    }
  }

  /** `parse_loc(payload, row_code)`: row codes 4 and 5. */
  function ParseLoc(payload: string, code: int): (r: Result<Record>)
    ensures r.Ok? ==> r.value.LocRecord? && RowCode(r.value) == code
  {
    var f1 :- NextField(payload);
    var lat :- ParseFloat(f1.field);
    var f2 :- NextField(f1.rest);
    var lon :- ParseFloat(f2.field);
    var f3 :- NextField(f2.rest);
    var elev :- ParseInt(f3.field);
    var f4 :- NextField(f3.rest);
    var freq :- ParseInt(f4.field);
    var f5 :- NextField(f4.rest);
    var range :- ParseInt(f5.field);
    var f6 :- NextField(f5.rest);
    var bearing :- ParseFloat(f6.field);
    var f7 :- NextField(f6.rest);
    var f8 :- NextField(f7.rest);
    var f9 :- NextField(f8.rest);
    var f10 :- NextField(f9.rest);
    Ok(LocRecord(code, lat, lon, elev, freq, range, bearing, f7.field, f8.field, f9.field,
                 f10.field, Strip(f10.rest)))
  }

  /** A localizer row decodes exactly when its payload yields 10 tokens before
      the name, tokens 1-2 and 6 are floats and 3-5 integers. Token 6 is the
      combined bearing and front course, kept whole; tokens 7-10 are the
      identifier, the airport, the ICAO region and the runway. */
  lemma LocLayout(p: string, code: int)
    ensures ParseLoc(p, code).Ok? <==>
              Fields(p, 10).Some?
              && var f := Fields(p, 10).value.fields;
                 IsFloatLiteral(f[0]) && IsFloatLiteral(f[1])
                 && IsIntLiteral(f[2]) && IsIntLiteral(f[3]) && IsIntLiteral(f[4])
                 && IsFloatLiteral(f[5])
    ensures ParseLoc(p, code).Ok? ==>
              var t := Fields(p, 10).value;
              var f := t.fields;
              ParseLoc(p, code).value
              == LocRecord(code, FloatLiteral(f[0]), FloatLiteral(f[1]), IntValue(f[2]),
                           IntValue(f[3]), IntValue(f[4]), FloatLiteral(f[5]), f[6], f[7], f[8],
                           f[9], Strip(t.rest))
  {
    if ParseLoc(p, code).Ok? {
      FieldsExtend(p, 0); FieldsExtend(p, 1); FieldsExtend(p, 2);
      FieldsExtend(p, 3); FieldsExtend(p, 4); FieldsExtend(p, 5);
      FieldsExtend(p, 6); FieldsExtend(p, 7); FieldsExtend(p, 8);
      FieldsExtend(p, 9);
    }
    if Fields(p, 10).Some? {
      FieldsChainAt(p, 10, 0); FieldsChainAt(p, 10, 1); FieldsChainAt(p, 10, 2);
      FieldsChainAt(p, 10, 3); FieldsChainAt(p, 10, 4); FieldsChainAt(p, 10, 5);
      FieldsChainAt(p, 10, 6); FieldsChainAt(p, 10, 7); FieldsChainAt(p, 10, 8);
      FieldsChainAt(p, 10, 9);
    }
  }

  /** `parse_gli(payload)`: row code 6. */
  function ParseGli(payload: string): (r: Result<Record>)
    ensures r.Ok? ==> r.value.GliRecord? && RowCode(r.value) == 6
  {
    var f1 :- NextField(payload);
    var lat :- ParseFloat(f1.field);
    var f2 :- NextField(f1.rest);
    var lon :- ParseFloat(f2.field);
    var f3 :- NextField(f2.rest);
    var elev :- ParseInt(f3.field);
    var f4 :- NextField(f3.rest);
    var freq :- ParseInt(f4.field);
    var f5 :- NextField(f4.rest);
    var range :- ParseInt(f5.field);
    var f6 :- NextField(f5.rest);
    var bearing :- ParseFloat(f6.field);
    var f7 :- NextField(f6.rest);
    var f8 :- NextField(f7.rest);
    var f9 :- NextField(f8.rest);
    var f10 :- NextField(f9.rest);
    Ok(GliRecord(lat, lon, elev, freq, range, bearing, f7.field, f8.field, f9.field,
                 f10.field, Strip(f10.rest)))
  }

  /** A glideslope row has the localizer's layout, ICAO region included:
      10 tokens before the name, token 6 the combined bearing and glideslope
      angle, kept whole. */
  lemma GliLayout(p: string)
    ensures ParseGli(p).Ok? <==>
              Fields(p, 10).Some?
              && var f := Fields(p, 10).value.fields;
                 IsFloatLiteral(f[0]) && IsFloatLiteral(f[1])
                 && IsIntLiteral(f[2]) && IsIntLiteral(f[3]) && IsIntLiteral(f[4])
                 && IsFloatLiteral(f[5])
    ensures ParseGli(p).Ok? ==>
              var t := Fields(p, 10).value;
              var f := t.fields;
              ParseGli(p).value
              == GliRecord(FloatLiteral(f[0]), FloatLiteral(f[1]), IntValue(f[2]),
                           IntValue(f[3]), IntValue(f[4]), FloatLiteral(f[5]), f[6], f[7], f[8],
                           f[9], Strip(t.rest))
  {
    if ParseGli(p).Ok? {
      FieldsExtend(p, 0); FieldsExtend(p, 1); FieldsExtend(p, 2);
      FieldsExtend(p, 3); FieldsExtend(p, 4); FieldsExtend(p, 5);
      FieldsExtend(p, 6); FieldsExtend(p, 7); FieldsExtend(p, 8);
      FieldsExtend(p, 9);
    }
    if Fields(p, 10).Some? {
      FieldsChainAt(p, 10, 0); FieldsChainAt(p, 10, 1); FieldsChainAt(p, 10, 2);
      FieldsChainAt(p, 10, 3); FieldsChainAt(p, 10, 4); FieldsChainAt(p, 10, 5);
      FieldsChainAt(p, 10, 6); FieldsChainAt(p, 10, 7); FieldsChainAt(p, 10, 8);
      FieldsChainAt(p, 10, 9);
    }
  }

  /** `parse_mrk(payload, row_code)`: row codes 7, 8 and 9. */
  function ParseMrk(payload: string, code: int): (r: Result<Record>)
    ensures r.Ok? ==> r.value.MrkRecord? && RowCode(r.value) == code
  {
    var f1 :- NextField(payload);
    var lat :- ParseFloat(f1.field);
    var f2 :- NextField(f1.rest);
    var lon :- ParseFloat(f2.field);
    var f3 :- NextField(f2.rest);
    var elev :- ParseInt(f3.field);
    var f4 :- NextField(f3.rest);  // not used
    var f5 :- NextField(f4.rest);  // not used
    var f6 :- NextField(f5.rest);
    var bearing :- ParseFloat(f6.field);
    var f7 :- NextField(f6.rest);  // not used ("----")
    var f8 :- NextField(f7.rest);
    var f9 :- NextField(f8.rest);
    var f10 :- NextField(f9.rest);
    Ok(MrkRecord(code, lat, lon, elev, bearing, f8.field, f9.field, f10.field, Strip(f10.rest)))
  }

  /** A marker row decodes exactly when its payload yields 10 tokens before
      the name, tokens 1-2 and 6 are floats and 3 an integer. Tokens 4, 5
      and 7 are read but dropped (never converted); tokens 8-10 are the
      airport, the ICAO region and the runway. */
  lemma MrkLayout(p: string, code: int)
    ensures ParseMrk(p, code).Ok? <==>
              Fields(p, 10).Some?
              && var f := Fields(p, 10).value.fields;
                 IsFloatLiteral(f[0]) && IsFloatLiteral(f[1]) && IsIntLiteral(f[2])
                 && IsFloatLiteral(f[5])
    ensures ParseMrk(p, code).Ok? ==>
              var t := Fields(p, 10).value;
              var f := t.fields;
              ParseMrk(p, code).value
              == MrkRecord(code, FloatLiteral(f[0]), FloatLiteral(f[1]), IntValue(f[2]),
                           FloatLiteral(f[5]), f[7], f[8], f[9], Strip(t.rest))
  {
    if ParseMrk(p, code).Ok? {
      FieldsExtend(p, 0); FieldsExtend(p, 1); FieldsExtend(p, 2);
      FieldsExtend(p, 3); FieldsExtend(p, 4); FieldsExtend(p, 5);
      FieldsExtend(p, 6); FieldsExtend(p, 7); FieldsExtend(p, 8);
      FieldsExtend(p, 9);
    }
    if Fields(p, 10).Some? {
      FieldsChainAt(p, 10, 0); FieldsChainAt(p, 10, 1); FieldsChainAt(p, 10, 2);
      FieldsChainAt(p, 10, 3); FieldsChainAt(p, 10, 4); FieldsChainAt(p, 10, 5);
      FieldsChainAt(p, 10, 6); FieldsChainAt(p, 10, 7); FieldsChainAt(p, 10, 8);
      FieldsChainAt(p, 10, 9);
    }
  }

  /** `parse_dme(payload, row_code)`: row codes 12 and 13. No runway token
      is read: whatever follows the ICAO region, runway included, is the name. */
  function ParseDme(payload: string, code: int): (r: Result<Record>)
    ensures r.Ok? ==> r.value.DmeRecord? && RowCode(r.value) == code
  {
    var f1 :- NextField(payload);
    var lat :- ParseFloat(f1.field);
    var f2 :- NextField(f1.rest);
    var lon :- ParseFloat(f2.field);
    var f3 :- NextField(f2.rest);
    var elev :- ParseInt(f3.field);
    var f4 :- NextField(f3.rest);
    var freq :- ParseInt(f4.field);
    var f5 :- NextField(f4.rest);
    var volume :- ParseInt(f5.field);
    var f6 :- NextField(f5.rest);
    var bias :- ParseFloat(f6.field);
    var f7 :- NextField(f6.rest);
    var f8 :- NextField(f7.rest);
    var f9 :- NextField(f8.rest);
    Ok(DmeRecord(code, lat, lon, elev, freq, volume, bias, f7.field, f8.field, f9.field,
                 Strip(f9.rest)))
  }

  /** A DME row decodes exactly when its payload yields 9 tokens before the
      name, tokens 1-2 and 6 are floats and 3-5 integers. Tokens 7-9 are the
      identifier, the airport or ENRT and the ICAO region. */
  lemma DmeLayout(p: string, code: int)
    ensures ParseDme(p, code).Ok? <==>
              Fields(p, 9).Some?
              && var f := Fields(p, 9).value.fields;
                 IsFloatLiteral(f[0]) && IsFloatLiteral(f[1])
                 && IsIntLiteral(f[2]) && IsIntLiteral(f[3]) && IsIntLiteral(f[4])
                 && IsFloatLiteral(f[5])
    ensures ParseDme(p, code).Ok? ==>
              var t := Fields(p, 9).value;
              var f := t.fields;
              ParseDme(p, code).value
              == DmeRecord(code, FloatLiteral(f[0]), FloatLiteral(f[1]), IntValue(f[2]),
                           IntValue(f[3]), IntValue(f[4]), FloatLiteral(f[5]), f[6], f[7], f[8],
                           Strip(t.rest))
  {
    if ParseDme(p, code).Ok? {
      FieldsExtend(p, 0); FieldsExtend(p, 1); FieldsExtend(p, 2);
      FieldsExtend(p, 3); FieldsExtend(p, 4); FieldsExtend(p, 5);
      FieldsExtend(p, 6); FieldsExtend(p, 7); FieldsExtend(p, 8);
    }
    if Fields(p, 9).Some? {
      FieldsChainAt(p, 9, 0); FieldsChainAt(p, 9, 1); FieldsChainAt(p, 9, 2);
      FieldsChainAt(p, 9, 3); FieldsChainAt(p, 9, 4); FieldsChainAt(p, 9, 5);
      FieldsChainAt(p, 9, 6); FieldsChainAt(p, 9, 7); FieldsChainAt(p, 9, 8);
    }
  }

  /** `echo(payload, row_code)`: rows 14, 15 and 16 pass their payload through. */
  function Echo(payload: string, code: int): (r: Result<Record>)
    ensures r.Ok? && r.value.EchoRecord?
    ensures RowCode(r.value) == code && r.value.payload == payload
    ensures Kind(r.value) == (if code == 14 then "FPAP" else if code == 15 then "GLS" else "LTP/FTP")
  {
    Ok(EchoRecord(code, payload))
  }
}

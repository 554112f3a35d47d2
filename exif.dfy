/**
 * What `extract_metadata` derives from an uploaded image: the file name, the
 * capture time from the primary ("0th") EXIF directory and signed decimal
 * coordinates from the GPS directory.
 *
 * Decoding the image container and the EXIF block is done by foreign
 * libraries; the model starts from their result, an optional `ExifData`
 * (None when the image carries no EXIF block).
 */
module Exif {
  import opened Wrappers

  /** Tag numbers of the EXIF standard, as looked up by the extractor. */
  const DateTimeTag: int := 0x0132
  const GpsLatitudeRefTag: int := 1
  const GpsLatitudeTag: int := 2
  const GpsLongitudeRefTag: int := 3
  const GpsLongitudeTag: int := 4

  /**
   * A value stored under a tag: a tuple of numbers (a degrees/minutes/seconds
   * triple) or a text (a date, a hemisphere letter). Text is taken as
   * already decoded.
   */
  datatype TagValue = Numbers(items: seq<real>) | Text(chars: string)

  /** The decoded EXIF block: the primary image directory and the GPS directory. */
  datatype ExifData = ExifData(zeroth: map<int, TagValue>, gps: map<int, TagValue>)

  /** Signed decimal degrees; south and west are negative. */
  datatype Coordinates = Coordinates(lat: real, lon: real)

  /** The dictionary `extract_metadata` returns. */
  datatype Extracted = Extracted(filename: string, dateTime: Option<string>, location: Option<Coordinates>)

  /** The exceptions the extractor can raise on ill-typed tag values; none of them is caught. */
  datatype Fault =
    | IndexOutOfRange  // a coordinate tuple shorter than the three components it indexes
    | NotANumber       // a coordinate stored as text, then used in arithmetic
    | NotDecodable     // a date stored as numbers, then decoded as text

  /** `dir.get(tag)`. */
  function Lookup(dir: map<int, TagValue>, tag: int): Option<TagValue> {
    if tag in dir then Some(dir[tag]) else None
  }

  /** Python truthiness of a looked-up value: present and non-empty. */
  predicate Truthy(v: Option<TagValue>) {
    match v
    case None => false
    case Some(Numbers(items)) => |items| > 0
    case Some(Text(chars)) => |chars| > 0
  }

  /** A tag holding a full degrees/minutes/seconds triple (further components are ignored). */
  predicate IsTriple(v: Option<TagValue>) {
    v.Some? && v.value.Numbers? && |v.value.items| >= 3
  }

  /** Reference meaning of a triple: the angle in seconds of arc. */
  function ArcSeconds(dms: seq<real>): real
    requires |dms| >= 3
  {
    3600.0 * dms[0] + 60.0 * dms[1] + dms[2]
  }

  /** The sign a hemisphere reference gives: +1 only for exactly the positive letter. */
  function Hemisphere(ref: Option<TagValue>, positive: string): real {
    if ref == Some(Text(positive)) then 1.0 else -1.0
  }

  /**
   * The last component of a POSIX path: everything after the last '/'
   * (the whole path when it has none, empty when it ends in '/').
   */
  function Basename(path: string): (name: string)
    ensures '/' !in name
    ensures |name| <= |path| && path[|path| - |name|..] == name
    ensures |name| < |path| ==> path[|path| - |name| - 1] == '/'
  {
    if path == [] || path[|path| - 1] == '/' then []
    else Basename(path[..|path| - 1]) + [path[|path| - 1]]
  }

  /** The capture time: the DateTime tag of the primary directory, decoded; "" when the tag is absent. */
  function DateTimeOf(zeroth: map<int, TagValue>): (r: Result<string, Fault>)
    ensures DateTimeTag !in zeroth ==> r == Success("")
    ensures DateTimeTag in zeroth && zeroth[DateTimeTag].Text? ==> r == Success(zeroth[DateTimeTag].chars)
    ensures r.Failure? <==> DateTimeTag in zeroth && zeroth[DateTimeTag].Numbers?
    ensures r.Failure? ==> r.error == NotDecodable
  {
    match Lookup(zeroth, DateTimeTag)
    case None => Success("")
    case Some(Text(chars)) => Success(chars)
    case Some(Numbers(_)) => Failure(NotDecodable)
  }

  /**
   * The unsigned angle of a non-empty coordinate tag: `v[0] + v[1]/60 + v[2]/3600`,
   * with the exception Python raises when `v` is too short or is text.
   */
  function Degrees(v: TagValue): (r: Result<real, Fault>)
    requires Truthy(Some(v))
    ensures r.Success? <==> IsTriple(Some(v))
    ensures r.Success? ==> 3600.0 * r.value == ArcSeconds(v.items)
    ensures r.Failure? && v.Text? && |v.chars| >= 2 ==> r.error == NotANumber
    ensures r.Failure? && (v.Numbers? || |v.chars| < 2) ==> r.error == IndexOutOfRange
  {
    match v
    case Numbers(items) =>
      if |items| < 3 then Failure(IndexOutOfRange)
      else Success(items[0] + items[1] / 60.0 + items[2] / 3600.0)
    case Text(chars) =>
      // chars[0] succeeds; chars[1] fails on a one-letter text, else dividing it fails
      if |chars| < 2 then Failure(IndexOutOfRange) else Failure(NotANumber)
  }

  /**
   * The location derived from the GPS directory: none for an empty directory
   * or when either coordinate tag is missing or empty; otherwise both angles,
   * each negated unless its reference is exactly "N" (latitude) or "E" (longitude).
   */
  function LocationOf(gps: map<int, TagValue>): (r: Result<Option<Coordinates>, Fault>)
    ensures |gps| == 0 ==> r == Success(None)
    ensures !Truthy(Lookup(gps, GpsLatitudeTag)) || !Truthy(Lookup(gps, GpsLongitudeTag)) ==> r == Success(None)
    ensures r.Failure? <==>
              Truthy(Lookup(gps, GpsLatitudeTag)) && Truthy(Lookup(gps, GpsLongitudeTag)) &&
              !(IsTriple(Lookup(gps, GpsLatitudeTag)) && IsTriple(Lookup(gps, GpsLongitudeTag)))
    ensures r.Success? && r.value.Some? <==>
              IsTriple(Lookup(gps, GpsLatitudeTag)) && IsTriple(Lookup(gps, GpsLongitudeTag))
    ensures r.Success? && r.value.Some? ==>
              && 3600.0 * r.value.value.lat
                 == Hemisphere(Lookup(gps, GpsLatitudeRefTag), "N") * ArcSeconds(gps[GpsLatitudeTag].items)
              && 3600.0 * r.value.value.lon
                 == Hemisphere(Lookup(gps, GpsLongitudeRefTag), "E") * ArcSeconds(gps[GpsLongitudeTag].items)
    // the latitude is converted first, so its exception wins over the longitude's
    ensures r.Failure? ==>
              r.error == (if !IsTriple(Lookup(gps, GpsLatitudeTag)) then Degrees(gps[GpsLatitudeTag]).error
                          else Degrees(gps[GpsLongitudeTag]).error)
  {
    if |gps| == 0 then Success(None)
    else
      var latitude := Lookup(gps, GpsLatitudeTag);
      var latitudeRef := Lookup(gps, GpsLatitudeRefTag);
      var longitude := Lookup(gps, GpsLongitudeTag);
      var longitudeRef := Lookup(gps, GpsLongitudeRefTag);
      if !(Truthy(latitude) && Truthy(longitude)) then Success(None)
      else
        match Degrees(latitude.value)
        case Failure(e) => Failure(e)
        case Success(latMagnitude) =>
          var lat := Hemisphere(latitudeRef, "N") * latMagnitude;
          match Degrees(longitude.value)
          case Failure(e) => Failure(e)
          case Success(lonMagnitude) =>
            Success(Some(Coordinates(lat, Hemisphere(longitudeRef, "E") * lonMagnitude)))
  }

  /**
   * `extract_metadata` on a file whose EXIF block decodes to `exif`.
   * Without a block both fields are None; with one, the capture time is always
   * a string ("" when the tag is absent) and the location follows the GPS directory.
   */
  function Extract(path: string, exif: Option<ExifData>): (r: Result<Extracted, Fault>)
    ensures exif.None? ==> r == Success(Extracted(Basename(path), None, None))
    ensures exif.Some? ==>
              (r.Success? <==> DateTimeOf(exif.value.zeroth).Success? && LocationOf(exif.value.gps).Success?)
    ensures exif.Some? && r.Success? ==>
              r.value == Extracted(Basename(path), Some(DateTimeOf(exif.value.zeroth).value), LocationOf(exif.value.gps).value)
    ensures exif.Some? && r.Failure? && DateTimeOf(exif.value.zeroth).Failure? ==> r.error == NotDecodable
    ensures exif.Some? && DateTimeOf(exif.value.zeroth).Success? && LocationOf(exif.value.gps).Failure? ==>
              r == Failure(LocationOf(exif.value.gps).error)
  {
    var filename := Basename(path);
    match exif
    case None => Success(Extracted(filename, None, None))
    case Some(data) =>
      match DateTimeOf(data.zeroth)
      case Failure(e) => Failure(e)
      case Success(dateTime) =>
        match LocationOf(data.gps)
        case Failure(e) => Failure(e)
        case Success(location) => Success(Extracted(filename, Some(dateTime), location))
  }
}

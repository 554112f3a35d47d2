/** Properties of the metadata extractor that relate several inputs or pin down its edge cases. */
module ExifProperties {
  import opened Wrappers
  import opened Exif

  /** With an EXIF block but no DateTime tag, the capture time is "" rather than None. */
  lemma DateTimeTagMissing(path: string, data: ExifData)
    requires DateTimeTag !in data.zeroth
    ensures Extract(path, Some(data)).Success? <==> LocationOf(data.gps).Success?
    ensures Extract(path, Some(data)).Success? ==> Extract(path, Some(data)).value.dateTime == Some("")
  {
  }

  /** The capture time does not depend on the GPS directory: changing it never changes a computed date. */
  lemma DateTimeIndependentOfGps(path: string, zeroth: map<int, TagValue>, gps1: map<int, TagValue>, gps2: map<int, TagValue>)
    ensures var r1 := Extract(path, Some(ExifData(zeroth, gps1)));
            var r2 := Extract(path, Some(ExifData(zeroth, gps2)));
            r1.Success? && r2.Success? ==> r1.value.dateTime == r2.value.dateTime
  {
  }

  /** An empty GPS directory yields no location, and extraction then fails only on an undecodable date. */
  lemma EmptyGpsDirectory(path: string, zeroth: map<int, TagValue>)
    ensures var r := Extract(path, Some(ExifData(zeroth, map[])));
            && (r.Success? <==> DateTimeOf(zeroth).Success?)
            && (r.Success? ==> r.value.location == None && r.value.dateTime == Some(DateTimeOf(zeroth).value))
  {
  }

  /**
   * A missing or empty latitude or longitude tuple yields no location,
   * whatever the reference letters say.
   */
  lemma MissingTripleMeansNoLocation(path: string, data: ExifData)
    requires !Truthy(Lookup(data.gps, GpsLatitudeTag)) || !Truthy(Lookup(data.gps, GpsLongitudeTag))
    ensures var r := Extract(path, Some(data));
            && (r.Success? <==> DateTimeOf(data.zeroth).Success?)
            && (r.Success? ==> r.value.location == None)
  {
  }

  /**
   * With non-negative components, each coordinate's absolute value is the
   * angle `d + m/60 + s/3600`, and it is negative exactly when the angle is
   * non-zero and the reference is not exactly "N" (latitude) or "E" (longitude).
   */
  lemma SignFollowsReference(gps: map<int, TagValue>)
    requires IsTriple(Lookup(gps, GpsLatitudeTag)) && IsTriple(Lookup(gps, GpsLongitudeTag))
    requires forall i :: 0 <= i < 3 ==> gps[GpsLatitudeTag].items[i] >= 0.0 && gps[GpsLongitudeTag].items[i] >= 0.0
    ensures LocationOf(gps).Success? && LocationOf(gps).value.Some?
    ensures var c := LocationOf(gps).value.value;
            var lat := gps[GpsLatitudeTag].items;
            var lon := gps[GpsLongitudeTag].items;
            && (if c.lat < 0.0 then -c.lat else c.lat) == lat[0] + lat[1] / 60.0 + lat[2] / 3600.0
            && (if c.lon < 0.0 then -c.lon else c.lon) == lon[0] + lon[1] / 60.0 + lon[2] / 3600.0
            && (c.lat < 0.0 <==> ArcSeconds(lat) > 0.0 && Lookup(gps, GpsLatitudeRefTag) != Some(Text("N")))
            && (c.lon < 0.0 <==> ArcSeconds(lon) > 0.0 && Lookup(gps, GpsLongitudeRefTag) != Some(Text("E")))
  {
  }

  /** New York: (40, 30, 0) "N" and (73, 59, 0) "W" give 40.5 and -(73 + 59/60). */
  lemma NorthWestExample()
    ensures LocationOf(map[GpsLatitudeRefTag := Text("N"), GpsLatitudeTag := Numbers([40.0, 30.0, 0.0]),
                           GpsLongitudeRefTag := Text("W"), GpsLongitudeTag := Numbers([73.0, 59.0, 0.0])])
         == Success(Some(Coordinates(40.5, -(73.0 + 59.0 / 60.0))))
  {
  }

  /** A non-standard reference letter "X" negates both coordinates, as "S" and "W" do. */
  lemma NonStandardReferenceNegates()
    ensures LocationOf(map[GpsLatitudeRefTag := Text("X"), GpsLatitudeTag := Numbers([40.0, 30.0, 0.0]),
                           GpsLongitudeRefTag := Text("X"), GpsLongitudeTag := Numbers([73.0, 59.0, 0.0])])
         == Success(Some(Coordinates(-40.5, -(73.0 + 59.0 / 60.0))))
  {
  }

  /** A missing reference compares unequal to "N" and "E", so it negates too. */
  lemma MissingReferenceNegates()
    ensures LocationOf(map[GpsLatitudeTag := Numbers([51.0, 30.0, 0.0]), GpsLongitudeTag := Numbers([0.0, 7.0, 0.0])])
         == Success(Some(Coordinates(-51.5, -7.0 / 60.0)))
  {
  }

  /** End to end: a dated image at (51, 30, 0) "N", (0, 7, 0) "E" yields that date and 51.5, 7/60. */
  lemma LondonExample()
    ensures Extract("images/7.jpg",
                    Some(ExifData(map[DateTimeTag := Text("2023:05:10 14:22:00")],
                                  map[GpsLatitudeRefTag := Text("N"), GpsLatitudeTag := Numbers([51.0, 30.0, 0.0]),
                                      GpsLongitudeRefTag := Text("E"), GpsLongitudeTag := Numbers([0.0, 7.0, 0.0])])))
         == Success(Extracted("7.jpg", Some("2023:05:10 14:22:00"), Some(Coordinates(51.5, 7.0 / 60.0))))
  {
  }

  /** A one-component latitude is indexed past its end: extraction raises instead of returning. */
  lemma ShortTripleRaises(path: string)
    ensures Extract(path, Some(ExifData(map[], map[GpsLatitudeTag := Numbers([40.0]), GpsLongitudeTag := Numbers([73.0, 59.0, 0.0])])))
         == Failure(IndexOutOfRange)
  {
    var gps := map[GpsLatitudeTag := Numbers([40.0]), GpsLongitudeTag := Numbers([73.0, 59.0, 0.0])];
    assert Lookup(gps, GpsLatitudeTag) == Some(Numbers([40.0]));
    assert Lookup(gps, GpsLongitudeTag) == Some(Numbers([73.0, 59.0, 0.0]));
    assert LocationOf(gps) == Failure(IndexOutOfRange);
  }
}

/** server/src/init-db.ts: `initializeDatabase`, three inserts each guarded by
    an emptiness check on its table. `bcrypt.hash` is a parameter, and each
    block's reading of the clock is a parameter of its own. */
module InitDb {
  import opened Wrappers
  import opened Schema
  import Validations
  import Tables
  import AuthRoutes
  import SettingRoutes
  import PropertyRoutes

  const DefaultUsername := "admin"
  const DefaultPassword := "admin123"

  /** The default admin: `admin`, the hash of `admin123`, never logged in. */
  function DefaultAdmin(hash: string -> string, now: int): Admin {
    Admin(DefaultUsername, hash(DefaultPassword), now, None)
  }

  /** The default settings, all stamped with the same `now`. */
  function SeedSettings(now: int): (r: seq<Setting>)
    ensures |r| == 3
    ensures forall i :: 0 <= i < |r| ==> r[i].updatedAt == now && r[i].description.Some?
  {
    [ Setting("site_name", "Modern Real Estate", "general", Some("Nombre del sitio web"), now),
      Setting("contact_email", "contact@modernestate.com", "contact", Some("Email de contacto principal"), now),
      Setting("contact_phone", "+1234567890", "contact", Some("Teléfono de contacto principal"), now) ]
  }

  /** The three test properties, one per category, all stamped with the same `now`. */
  function SeedProperties(now: int): seq<PropertyRow> {
    [ PropertyRow("industrial", "sale", "Nave Industrial Moderna", "Parque Industrial Norte",
                  "warehouse", 2500000.0, 5000.0, Some(4500.0),
                  "Moderna nave industrial con excelente ubicación",
                  Some("Altura: 12m, Andenes: 4, Oficinas: 500m²"),
                  19.4326, -99.1332, "active", now, now),
      PropertyRow("commercial", "rent", "Local Comercial Centro", "Av. Principal 123",
                  "retail", 25000.0, 150.0, Some(150.0),
                  "Local comercial en ubicación privilegiada", None,
                  19.4326, -99.1332, "active", now, now),
      PropertyRow("residential", "sale", "Casa Moderna Valle Real", "Valle Real 456",
                  "house", 850000.0, 300.0, Some(250.0),
                  "Hermosa casa moderna con acabados de lujo", None,
                  19.4326, -99.1332, "active", now, now) ]
  }

  /** The seeded keys are pairwise distinct, as the unique key column demands. */
  lemma SeedSettingKeysDistinct(now: int)
    ensures forall i, j :: 0 <= i < j < |SeedSettings(now)| ==> SeedSettings(now)[i].key != SeedSettings(now)[j].key
  {
  }

  /** Every seeded property has created_at = updated_at = `now`, and there is
      one per category, in the order industrial, commercial, residential. */
  lemma SeedPropertiesShape(now: int)
    ensures |SeedProperties(now)| == 3
    ensures forall i :: 0 <= i < 3 ==> SeedProperties(now)[i].createdAt == now == SeedProperties(now)[i].updatedAt
    ensures Validations.ParseCategory(Some(SeedProperties(now)[0].kind)) == Some(Validations.Industrial)
    ensures Validations.ParseCategory(Some(SeedProperties(now)[1].kind)) == Some(Validations.Commercial)
    ensures Validations.ParseCategory(Some(SeedProperties(now)[2].kind)) == Some(Validations.Residential)
  {
  }

  /** Read back through the property schema, the industrial and residential
      seeds pass; the commercial seed fails, since it has no local_size. */
  lemma SeedPropertiesAgainstSchema(now: int)
    ensures Validations.Parse(PayloadOf(SeedProperties(now)[0])).Some?
    ensures Validations.Parse(PayloadOf(SeedProperties(now)[1])).None?
    ensures Validations.Parse(PayloadOf(SeedProperties(now)[2])).Some?
  {
    var seed := SeedProperties(now);
    StoredCommercialRowRejected(seed[1]);
    Validations.ParseIffNoIssues(PayloadOf(seed[0]));
    Validations.ParseIffNoIssues(PayloadOf(seed[2]));
  }

  /** A second run inserts nothing in any of the three tables. */
  lemma SecondRunInsertsNothing(admins: map<int, Admin>, adminsNext: int, admin: Admin,
                                settings: map<int, Setting>, settingsNext: int,
                                properties: map<int, PropertyRow>, propertiesNext: int,
                                now: int, admin': Admin, now': int,
                                adminsNext': int, settingsNext': int, propertiesNext': int)
    requires 1 <= adminsNext && Tables.IdsBelow(admins, adminsNext)
    requires 1 <= settingsNext && Tables.IdsBelow(settings, settingsNext)
    requires 1 <= propertiesNext && Tables.IdsBelow(properties, propertiesNext)
    requires 1 <= adminsNext' && Tables.IdsBelow(Tables.Seeded(admins, adminsNext, [admin]), adminsNext')
    requires 1 <= settingsNext' && Tables.IdsBelow(Tables.Seeded(settings, settingsNext, SeedSettings(now)), settingsNext')
    requires 1 <= propertiesNext' && Tables.IdsBelow(Tables.Seeded(properties, propertiesNext, SeedProperties(now)), propertiesNext')
    ensures var a := Tables.Seeded(admins, adminsNext, [admin]);
      Tables.Seeded(a, adminsNext', [admin']) == a
    ensures var s := Tables.Seeded(settings, settingsNext, SeedSettings(now));
      Tables.Seeded(s, settingsNext', SeedSettings(now')) == s
    ensures var p := Tables.Seeded(properties, propertiesNext, SeedProperties(now));
      Tables.Seeded(p, propertiesNext', SeedProperties(now')) == p
  {
    Tables.SeededTwice(admins, adminsNext, [admin], adminsNext', [admin']);
    Tables.SeededTwice(settings, settingsNext, SeedSettings(now), settingsNext', SeedSettings(now'));
    Tables.SeededTwice(properties, propertiesNext, SeedProperties(now), propertiesNext', SeedProperties(now'));
  }

  /** `initializeDatabase`: each table gets its seed rows exactly when it was
      empty, and is left alone otherwise. */
  method InitializeDatabase(admins: AuthRoutes.AdminStore, settings: SettingRoutes.SettingStore,
                            properties: PropertyRoutes.PropertyStore, hash: string -> string,
                            adminNow: int, settingsNow: int, propertiesNow: int)
    requires admins.Valid() && settings.Valid() && properties.Valid()
    modifies admins, settings, properties
    ensures admins.Valid() && settings.Valid() && properties.Valid()
    ensures admins.rows == Tables.Seeded(old(admins.rows), old(admins.nextId), [DefaultAdmin(hash, adminNow)])
    ensures settings.rows == Tables.Seeded(old(settings.rows), old(settings.nextId), SeedSettings(settingsNow))
    ensures properties.rows == Tables.Seeded(old(properties.rows), old(properties.nextId), SeedProperties(propertiesNow))
    ensures properties.images == old(properties.images)
  {
    if admins.rows == map[] {
      ghost var before := admins.rows;
      admins.Insert(DefaultAdmin(hash, adminNow));
      assert admins.rows == Tables.Appended(before[old(admins.nextId) := DefaultAdmin(hash, adminNow)], old(admins.nextId) + 1, []);
    }
    if settings.rows == map[] {
      SeedSettingKeysDistinct(settingsNow);
      settings.InsertAll(SeedSettings(settingsNow));
    }
    if properties.rows == map[] {
      properties.InsertAll(SeedProperties(propertiesNow));
    }
  }

  /** Running the initialisation a second time leaves every table as the first run left it. */
  method InitializeTwice(admins: AuthRoutes.AdminStore, settings: SettingRoutes.SettingStore,
                         properties: PropertyRoutes.PropertyStore, hash: string -> string,
                         now: int, now': int)
    requires admins.Valid() && settings.Valid() && properties.Valid()
    modifies admins, settings, properties
    ensures admins.Valid() && settings.Valid() && properties.Valid()
    ensures admins.rows == Tables.Seeded(old(admins.rows), old(admins.nextId), [DefaultAdmin(hash, now)])
    ensures settings.rows == Tables.Seeded(old(settings.rows), old(settings.nextId), SeedSettings(now))
    ensures properties.rows == Tables.Seeded(old(properties.rows), old(properties.nextId), SeedProperties(now))
    ensures admins.rows != map[] && settings.rows != map[] && properties.rows != map[]
  {
    InitializeDatabase(admins, settings, properties, hash, now, now, now);
    ghost var a, s, p := admins.rows, settings.rows, properties.rows;
    Tables.SeededNotEmpty(old(admins.rows), old(admins.nextId), [DefaultAdmin(hash, now)]);
    Tables.SeededNotEmpty(old(settings.rows), old(settings.nextId), SeedSettings(now));
    Tables.SeededNotEmpty(old(properties.rows), old(properties.nextId), SeedProperties(now));
    InitializeDatabase(admins, settings, properties, hash, now', now', now');
    assert admins.rows == a && settings.rows == s && properties.rows == p;
  }
}
